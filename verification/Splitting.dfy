/** A stream heard piece by piece, split into bands by a filter run forwards over all of it and
    backwards over each chunk from a margin ahead, and held as the loudest of each tile. What
    is held in the end does not depend on where the pieces were cut. */
module Splitting {
  import opened Folding
  import opened Filtering
  import opened Tiling
  import opened Readings

  /** What a bank is set up with. */
  datatype Setup<!S(!new)> = Setup(
    filter: Filter<S>, chunk: nat, margin: nat, tree: Tree, each: nat, most: nat, readAtOnce: nat)
  {
    function Levels(): nat {
      filter.lanes + 2
    }

    ghost predicate Valid() {
      filter.Valid() && chunk > 0 && each > 0 && most > 0 && readAtOnce > 0 && Rooted(tree, Levels())
    }

    function Planes(samples: seq<real>): (planes: seq<Plane>)
      ensures |planes| == |samples|
    {
      Broadcast(samples, filter.lanes)
    }

    // -------------------------------------------------------------- the whole at once

    /** The state before the first frame: the start of the stream run backwards up to it. */
    ghost function Begun(stream: seq<real>): S {
      filter.StateAfter(filter.silent, Planes(Mirrored(stream, margin)))
    }

    ghost function Forward(stream: seq<real>): (passed: seq<Plane>)
      ensures |passed| == |stream|
    {
      filter.Run(Begun(stream), Planes(stream))
    }

    /** The state once the first frames are passed. */
    ghost predicate StateIs(stream: seq<real>, cut: nat, forward: S) {
      cut <= |stream| && forward == filter.StateAt(Begun(stream), Planes(stream), cut)
    }

    /** What is ahead of the last frame: the end of the stream run back from it. */
    ghost function Ahead(stream: seq<real>, held: nat): (ahead: seq<Plane>)
      requires held <= |stream|
    {
      filter.Run(filter.StateAfter(Begun(stream), Planes(stream)), Planes(MirroredEnd(stream, Least(margin, held))))
    }

    /** The stream settled: chunk by chunk while a whole margin is ahead, and then the rest of
        it from its end mirrored. */
    ghost function SettledWhole(stream: seq<real>): (settled: seq<Plane>)
      requires chunk > 0
      ensures |settled| == |stream|
    {
      var end := WholeChunks(chunk, margin, |stream|);
      SettledUpto(filter.Backing(), Forward(stream), chunk, margin, end, Ahead(stream, |stream| - end))
    }
  }

  /** The chunks that have a whole margin ahead of them, and the rest from its end mirrored. */
  ghost function SettledUpto(
    backward: Backing, passed: seq<Plane>, chunk: nat, margin: nat, end: nat, ahead: seq<Plane>)
    : (settled: seq<Plane>)
    requires Keeps(backward) && chunk > 0 && end <= |passed|
  {
    ChunksSettled(backward, passed, 0, chunk, margin) + backward(From(passed, end), ahead)
  }

  lemma {:induction false} StartOfTile(frame: nat, chunk: nat)
    requires chunk > 0
    ensures Start(TileOf(frame, chunk), chunk) <= frame < Start(TileOf(frame, chunk), chunk) + chunk
    decreases frame
  {
    if frame >= chunk {
      StartOfTile(frame - chunk, chunk);
    }
  }

  function Least(one: nat, held: nat): nat {
    if held == 0 then 0 else if one < held - 1 then one else held - 1
  }

  /** The first frames after the very first, from the furthest back to the nearest. */
  function Mirrored(stream: seq<real>, margin: nat): (mirrored: seq<real>)
    ensures |mirrored| == Least(margin, |stream|)
    ensures forall k {:trigger mirrored[k]} | 0 <= k < |mirrored| :: mirrored[k] == stream[|mirrored| - k]
  {
    seq(Least(margin, |stream|), k requires 0 <= k < Least(margin, |stream|) => stream[Least(margin, |stream|) - k])
  }

  /** The last frames before the very last, from the nearest to the furthest ahead. */
  function MirroredEnd(stream: seq<real>, frames: nat): (mirrored: seq<real>)
    requires frames < |stream| || frames == 0
    ensures |mirrored| == frames
    ensures forall k {:trigger mirrored[k]} | 0 <= k < frames :: mirrored[k] == stream[|stream| - 2 - k]
  {
    seq(frames, k requires 0 <= k < frames => stream[|stream| - 2 - k])
  }

  // ---------------------------------------------------------------- chunks settled so far

  ghost function From<T>(planes: seq<T>, from: nat): (rest: seq<T>)
    requires from <= |planes|
    ensures |rest| == |planes| - from
  {
    Stretch(planes, from, |planes|)
  }

  /** Where the chunks that have a whole margin ahead of them end. */
  ghost function ChunksEnd(from: nat, chunk: nat, margin: nat, frames: nat): (end: nat)
    requires chunk > 0
    ensures from <= end && (from <= frames ==> end <= frames)
    ensures frames < end + chunk + margin
    decreases frames - from
  {
    if from + chunk + margin > frames then from else ChunksEnd(from + chunk, chunk, margin, frames)
  }

  /** How far the chunks that have a whole margin ahead of them go. */
  ghost function WholeChunks(chunk: nat, margin: nat, frames: nat): (end: nat)
    requires chunk > 0
    ensures end <= frames < end + chunk + margin
  {
    ChunksEnd(0, chunk, margin, frames)
  }

  /** One chunk run backwards from a margin ahead. */
  ghost function ChunkSettled(
    backward: Backing, passed: seq<Plane>, from: nat, chunk: nat, margin: nat): (settled: seq<Plane>)
    requires Keeps(backward) && from + chunk + margin <= |passed|
    ensures |settled| == chunk
  {
    backward(Stretch(passed, from, from + chunk), Stretch(passed, from + chunk, from + chunk + margin))
  }

  /** Every chunk from one place on that has a whole margin ahead of it, settled. */
  ghost function ChunksSettled(
    backward: Backing, passed: seq<Plane>, from: nat, chunk: nat, margin: nat): (settled: seq<Plane>)
    requires Keeps(backward) && chunk > 0
    ensures |settled| == ChunksEnd(from, chunk, margin, |passed|) - from
    decreases |passed| - from
  {
    if from + chunk + margin > |passed| then []
    else
      ChunkSettled(backward, passed, from, chunk, margin)
      + ChunksSettled(backward, passed, from + chunk, chunk, margin)
  }

  lemma Regrouped<T>(one: seq<T>, other: seq<T>, more: seq<T>)
    ensures one + other + more == one + (other + more)
  {
  }

  /** Settling in place, and going on from where it ended, is settling from the first. */
  lemma {:induction false} SettledInPlace(backward: Backing, passed: seq<Plane>, chunks: nat, chunk: nat, margin: nat)
    requires Keeps(backward) && chunk > 0 && (chunks > 0 ==> Start(chunks, chunk) + margin <= |passed|)
    ensures Start(chunks, chunk) <= |passed|
    ensures SettledFirst(backward, passed, chunks, chunk, margin)[..Start(chunks, chunk)]
              + ChunksSettled(backward, passed, Start(chunks, chunk), chunk, margin)
         == ChunksSettled(backward, passed, 0, chunk, margin)
  {
    if chunks > 0 {
      var last := chunks - 1;
      SettledInPlace(backward, passed, last, chunk, margin);
      PutThenRest(SettledFirst(backward, passed, last, chunk, margin), Start(last, chunk),
        Settled(backward, passed, last, chunk, margin),
        ChunksSettled(backward, passed, Start(chunks, chunk), chunk, margin));
    }
  }

  lemma PutThenRest<T>(before: seq<T>, from: nat, out: seq<T>, rest: seq<T>)
    requires from + |out| <= |before|
    ensures Put(before, from, out)[..from + |out|] + rest == before[..from] + (out + rest)
  {
    assert Put(before, from, out)[..from + |out|] == before[..from] + out;
  }

  ghost predicate Begins<T>(passed: seq<T>, longer: seq<T>) {
    |passed| <= |longer| && forall k | 0 <= k < |passed| :: longer[k] == passed[k]
  }

  /** What is settled of a stream stays so as it goes on, and the rest is settled from where
      that ended. */
  lemma {:induction false} SettledOn(
    backward: Backing, passed: seq<Plane>, longer: seq<Plane>, from: nat, chunk: nat, margin: nat)
    requires Keeps(backward) && chunk > 0 && Begins(passed, longer)
    ensures ChunksSettled(backward, longer, from, chunk, margin)
         == ChunksSettled(backward, passed, from, chunk, margin)
            + ChunksSettled(backward, longer, ChunksEnd(from, chunk, margin, |passed|), chunk, margin)
    ensures ChunksEnd(from, chunk, margin, |longer|)
         == ChunksEnd(ChunksEnd(from, chunk, margin, |passed|), chunk, margin, |longer|)
    decreases |passed| - from
  {
    var to := from + chunk;
    if to + margin <= |passed| {
      SettledOn(backward, passed, longer, to, chunk, margin);
      ChunkGrows(backward, passed, longer, from, chunk, margin);
      Regrouped(ChunkSettled(backward, passed, from, chunk, margin), ChunksSettled(backward, passed, to, chunk, margin),
        ChunksSettled(backward, longer, ChunksEnd(to, chunk, margin, |passed|), chunk, margin));
    }
  }

  lemma ChunkGrows(backward: Backing, passed: seq<Plane>, longer: seq<Plane>, from: nat, chunk: nat, margin: nat)
    requires Keeps(backward) && Begins(passed, longer) && from + chunk + margin <= |passed|
    ensures ChunkSettled(backward, longer, from, chunk, margin) == ChunkSettled(backward, passed, from, chunk, margin)
  {
    StretchGrows(passed, longer, from, from + chunk);
    StretchGrows(passed, longer, from + chunk, from + chunk + margin);
  }

  lemma StretchGrows<T>(passed: seq<T>, longer: seq<T>, from: nat, to: nat)
    requires from <= to <= |passed| && Begins(passed, longer)
    ensures Stretch(longer, from, to) == Stretch(passed, from, to)
  {
  }

  /** Settling reads nothing before where it starts. */
  lemma {:induction false} SettledElsewhere(
    backward: Backing, passed: seq<Plane>, base: nat, from: nat, chunk: nat, margin: nat)
    requires Keeps(backward) && chunk > 0 && base <= |passed|
    ensures ChunksSettled(backward, From(passed, base), from, chunk, margin)
         == ChunksSettled(backward, passed, base + from, chunk, margin)
    ensures base + ChunksEnd(from, chunk, margin, |passed| - base) == ChunksEnd(base + from, chunk, margin, |passed|)
    decreases |passed| - from
  {
    var to := from + chunk;
    if base + to + margin <= |passed| {
      SettledElsewhere(backward, passed, base, to, chunk, margin);
      StretchMoved(passed, base, from, to);
      StretchMoved(passed, base, to, to + margin);
    }
  }

  lemma StretchMoved<T>(passed: seq<T>, base: nat, from: nat, to: nat)
    requires from <= to && base + to <= |passed|
    ensures Stretch(passed, base + from, base + to) == Stretch(From(passed, base), from, to)
  {
  }

  ghost predicate Laned(planes: seq<Plane>, lanes: nat) {
    forall k | 0 <= k < |planes| :: |planes[k]| == lanes
  }

  ghost predicate KeepsLanes(backward: Backing, lanes: nat) {
    forall settled, ahead {:trigger backward(settled, ahead)} | Laned(settled, lanes) ::
      Laned(backward(settled, ahead), lanes)
  }

  lemma {:induction false} SettledKeepsLanes(
    backward: Backing, passed: seq<Plane>, from: nat, chunk: nat, margin: nat, lanes: nat)
    requires Keeps(backward) && KeepsLanes(backward, lanes) && chunk > 0 && Laned(passed, lanes)
    ensures Laned(ChunksSettled(backward, passed, from, chunk, margin), lanes)
    decreases |passed| - from
  {
    var to := from + chunk;
    if to + margin <= |passed| {
      SettledKeepsLanes(backward, passed, to, chunk, margin, lanes);
      assert Laned(ChunkSettled(backward, passed, from, chunk, margin), lanes);
    }
  }

  lemma BackingKeepsLanes<S(!new)>(filter: Filter<S>)
    requires filter.Valid()
    ensures KeepsLanes(filter.Backing(), filter.lanes)
  {
    forall settled, ahead | Laned(settled, filter.lanes) ensures Laned(filter.Backing()(settled, ahead), filter.lanes) {
      filter.BackwardKeepsLanes(settled, filter.StateBefore(ahead));
    }
  }

  // ---------------------------------------------------------------- so far

  /** What is heard, and what of it is passed, past the chunks that are settled. */
  ghost predicate Held<T>(stream: seq<real>, heard: seq<real>, whole: seq<T>, passed: seq<T>, base: nat) {
    && base <= |stream| == |whole| && |passed| <= |heard| == |stream| - base
    && forall at: nat {:trigger Look(TheHeld, at)} | Look(TheHeld, at) ::
         heard == From(stream, base) && passed == Stretch(whole, base, base + |passed|)
  }

  lemma HeldGrows<T>(
    stream: seq<real>, heard: seq<real>, whole: seq<T>, passed: seq<T>, base: nat, more: seq<real>, longer: seq<T>)
    requires Held(stream, heard, whole, passed, base) && Begins(whole, longer) && |longer| == |stream| + |more|
    ensures Held(stream + more, heard + more, longer, passed, base)
  {
    assert Look(TheHeld, 0);
    StretchGrows(whole, longer, base, base + |passed|);
    assert heard + more == From(stream + more, base);
  }

  lemma HeldAll<T>(stream: seq<real>, heard: seq<real>, whole: seq<T>, passed: seq<T>, base: nat, newly: seq<T>)
    requires Held(stream, heard, whole, passed, base) && newly == Stretch(whole, base + |passed|, |whole|)
    ensures Held(stream, heard, whole, passed + newly, base)
    ensures heard[|passed|..] == stream[base + |passed|..]
  {
    assert Look(TheHeld, 0);
    assert passed + newly == Stretch(whole, base, |whole|);
  }

  /** Chunks given up from the front of what is held. */
  lemma HeldLess<T>(stream: seq<real>, heard: seq<real>, whole: seq<T>, passed: seq<T>, base: nat, frames: nat)
    requires Held(stream, heard, whole, passed, base) && frames <= |passed|
    ensures Held(stream, heard[frames..], whole, passed[frames..], base + frames)
    ensures base + frames + |passed[frames..]| == base + |passed|
  {
    assert Look(TheHeld, 0);
    assert heard[frames..] == From(stream, base + frames);
    assert passed[frames..] == Stretch(whole, base + frames, base + |passed|);
  }

  ghost predicate SettledSoFar(
    backward: Backing, passed: seq<Plane>, chunk: nat, margin: nat, base: nat, settled: seq<Plane>)
    requires Keeps(backward) && chunk > 0
  {
    forall at: nat {:trigger Look(TheSettled, at)} | Look(TheSettled, at) ::
      && settled + ChunksSettled(backward, passed, base, chunk, margin)
         == ChunksSettled(backward, passed, 0, chunk, margin)
      && ChunksEnd(base, chunk, margin, |passed|) == ChunksEnd(0, chunk, margin, |passed|)
  }

  lemma SoFarGrows(
    backward: Backing, passed: seq<Plane>, longer: seq<Plane>, chunk: nat, margin: nat, base: nat, settled: seq<Plane>)
    requires Keeps(backward) && chunk > 0 && Begins(passed, longer)
    requires SettledSoFar(backward, passed, chunk, margin, base, settled)
    ensures SettledSoFar(backward, longer, chunk, margin, base, settled)
  {
    assert Look(TheSettled, 0);
    var end := ChunksEnd(0, chunk, margin, |passed|);
    SettledOn(backward, passed, longer, 0, chunk, margin);
    SettledOn(backward, passed, longer, base, chunk, margin);
    Regrouped(settled, ChunksSettled(backward, passed, base, chunk, margin),
      ChunksSettled(backward, longer, end, chunk, margin));
  }

  /** More chunks settled of what is held is more settled of the whole. */
  lemma SoFarMore(
    backward: Backing, stream: seq<real>, heard: seq<real>, whole: seq<Plane>, held: seq<Plane>, base: nat, chunk: nat,
    margin: nat, settled: seq<Plane>, more: seq<Plane>)
    requires Keeps(backward) && chunk > 0 && Held(stream, heard, whole, held, base)
    requires SettledSoFar(backward, whole, chunk, margin, base, settled)
    requires more == ChunksSettled(backward, held, 0, chunk, margin)
    ensures SettledSoFar(backward, whole, chunk, margin, base + |more|, settled + more)
  {
    HeldBegins(stream, heard, whole, held, base);
    HeldSettledOfAll(backward, whole, chunk, margin, base, held, more, |more|);
    assert Look(TheSettled, 0);
    Regrouped(settled, more, ChunksSettled(backward, whole, base + |more|, chunk, margin));
  }

  /** What settling in place settles of what is held is every chunk that has a margin ahead. */
  lemma HeldSettled(backward: Backing, held: seq<Plane>, chunks: nat, end: nat, chunk: nat, margin: nat)
    requires Keeps(backward) && chunk > 0 && end == Start(chunks, chunk)
    requires chunks > 0 ==> end + margin <= |held|
    requires |held| < end + chunk + margin
    ensures end <= |held|
    ensures SettledFirst(backward, held, chunks, chunk, margin)[..end]
      == ChunksSettled(backward, held, 0, chunk, margin)
  {
    SettledInPlace(backward, held, chunks, chunk, margin);
  }

  lemma HeldBegins<T>(stream: seq<real>, heard: seq<real>, whole: seq<T>, held: seq<T>, base: nat)
    requires Held(stream, heard, whole, held, base)
    ensures Begins(held, From(whole, base))
  {
    assert Look(TheHeld, 0);
  }

  lemma HeldSettledOfAll(
    backward: Backing, passed: seq<Plane>, chunk: nat, margin: nat, base: nat, held: seq<Plane>, more: seq<Plane>,
    end: nat)
    requires Keeps(backward) && chunk > 0 && base <= |passed| && Begins(held, From(passed, base))
    requires more == ChunksSettled(backward, held, 0, chunk, margin) && end == |more|
    ensures base + end <= |passed|
    ensures ChunksSettled(backward, passed, base, chunk, margin)
         == more + ChunksSettled(backward, passed, base + end, chunk, margin)
    ensures ChunksEnd(base, chunk, margin, |passed|) == ChunksEnd(base + end, chunk, margin, |passed|)
  {
    SettledOn(backward, held, From(passed, base), 0, chunk, margin);
    SettledElsewhere(backward, passed, base, 0, chunk, margin);
    SettledElsewhere(backward, passed, base, end, chunk, margin);
  }
}
