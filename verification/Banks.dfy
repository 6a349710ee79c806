/** One channel's bank: pieces of a stream are noted as they come, and what is finished in the
    end is what the whole stream at once would give. */
module Banks {
  import opened Wrappers
  import opened Folding
  import opened Filtering
  import opened Tiling
  import opened Readings
  import opened Splitting

  // ---------------------------------------------------------------- interleaved samples

  /** One channel of interleaved frames. */
  function Lane(interleaved: seq<real>, index: nat, width: nat): (lane: seq<real>)
    requires index < width
  {
    if |interleaved| <= index then []
    else [interleaved[index]] + if |interleaved| < width then [] else Lane(interleaved[width..], index, width)
  }

  ghost predicate WholeFrames(interleaved: seq<real>, width: nat)
    requires width > 0
  {
    interleaved == [] || (width <= |interleaved| && WholeFrames(interleaved[width..], width))
  }

  /** Pieces cut between frames, put end to end. */
  function Joined(pieces: seq<seq<real>>): (whole: seq<real>) {
    if pieces == [] then [] else Joined(pieces[..|pieces| - 1]) + pieces[|pieces| - 1]
  }

  lemma {:induction false} LaneJoined(one: seq<real>, other: seq<real>, index: nat, width: nat)
    requires index < width && WholeFrames(one, width)
    ensures Lane(one + other, index, width) == Lane(one, index, width) + Lane(other, index, width)
  {
    if one == [] {
      assert one + other == other;
    } else {
      var rest := one[width..];
      LaneJoined(rest, other, index, width);
      Split(one, other, width);
      Regrouped([one[index]], Lane(rest, index, width), Lane(other, index, width));
      assert Lane(one + other, index, width) == [one[index]] + Lane(rest + other, index, width);
    }
  }

  lemma Split<T>(one: seq<T>, other: seq<T>, width: nat)
    requires width <= |one|
    ensures (one + other)[width..] == one[width..] + other
  {
  }

  lemma {:induction false} WholeJoined(one: seq<real>, other: seq<real>, width: nat)
    requires width > 0 && WholeFrames(one, width) && WholeFrames(other, width)
    ensures WholeFrames(one + other, width)
  {
    if one == [] {
      assert one + other == other;
    } else {
      WholeJoined(one[width..], other, width);
      Split(one, other, width);
    }
  }

  // ---------------------------------------------------------------- what the whole gives

  datatype Tiled = Tiled(frames: nat, loudest: seq<Heights>)

  lemma PlanesLaned<S(!new)>(setup: Setup<S>, stream: seq<real>)
    requires setup.Valid()
    ensures Laned(setup.Forward(stream), setup.filter.lanes)
  {
    setup.filter.RunKeepsLanes(setup.Begun(stream), setup.Planes(stream));
  }

  lemma WholeLaned<S(!new)>(setup: Setup<S>, stream: seq<real>)
    requires setup.Valid()
    ensures Laned(setup.SettledWhole(stream), setup.filter.lanes)
  {
    var passed, end := setup.Forward(stream), ChunksEnd(0, setup.chunk, setup.margin, |stream|);
    PlanesLaned(setup, stream);
    BackingKeepsLanes(setup.filter);
    SettledKeepsLanes(setup.filter.Backing(), passed, 0, setup.chunk, setup.margin, setup.filter.lanes);
    assert Laned(From(passed, end), setup.filter.lanes);
  }

  lemma RowsLevel(planes: seq<Plane>, heard: seq<real>, lanes: nat)
    requires Laned(planes, lanes) && |planes| == |heard|
    ensures Level(RowsOf(planes, heard), lanes + 2)
  {
  }

  /** Every frame of the whole stream as a row of levels. */
  ghost function Rows<S(!new)>(setup: Setup<S>, stream: seq<real>): (rows: seq<Row>)
    requires setup.Valid()
    ensures |rows| == |stream| && Level(rows, setup.Levels())
  {
    WholeLaned(setup, stream);
    RowsLevel(setup.SettledWhole(stream), stream, setup.filter.lanes);
    RowsOf(setup.SettledWhole(stream), stream)
  }

  /** What rows are held as in the end: each tile the loudest of exactly its own frames, the
      midpoints after the last frame counted with it. */
  ghost function TilesOver(tree: Tree, rows: seq<Row>, levels: nat, each: nat, most: nat): (tiled: Tiled)
    requires Rooted(tree, levels) && Level(rows, levels) && each > 0 && most > 0
  {
    var heights := Read(tree, rows, levels);
    var last := if rows == [] then 0 else |rows| - 1;
    var frames := Doubled(each, last, most);
    Tiled(frames, seq(TileOf(last, frames) + 1, t requires 0 <= t <= TileOf(last, frames) =>
      var loudest := Loudest(heights, |tree|, frames, t, |heights|);
      if t == TileOf(last, frames) then LoudestOver(loudest, After(tree, rows, levels), LAST_MIDPOINT_FRAMES)
      else loudest))
  }

  /** What the frames after the last would read as, were they silent. */
  ghost function After(tree: Tree, rows: seq<Row>, levels: nat): (after: seq<Heights>)
    requires Rooted(tree, levels) && Level(rows, levels)
    ensures |after| == LAST_MIDPOINT_FRAMES && Alike(after, |tree|)
  {
    Stays(rows, levels);
    ReadFrom(tree, Kept(rows, levels) + Silents(LAST_MIDPOINT_FRAMES, levels), levels)
  }

  lemma Stays(rows: seq<Row>, levels: nat)
    requires Level(rows, levels)
    ensures Level(Kept(rows, levels) + Silents(LAST_MIDPOINT_FRAMES, levels), levels)
  {
  }

  ghost function TilesOf<S(!new)>(setup: Setup<S>, stream: seq<real>): (tiled: Tiled)
    requires setup.Valid()
  {
    TilesOver(setup.tree, Rows(setup, stream), setup.Levels(), setup.each, setup.most)
  }

  // ---------------------------------------------------------------- hearing more of the stream

  /** What the planes passed, the way back over them and the state stand for. */
  ghost predicate Tied<S(!new)>(
    setup: Setup<S>, stream: seq<real>, whole: seq<Plane>, backward: Backing, cut: nat, forward: S)
  {
    forall at: nat {:trigger Look(TheTied, at)} | Look(TheTied, at) ::
      whole == setup.Forward(stream) && backward == setup.filter.Backing() && setup.StateIs(stream, cut, forward)
  }

  lemma Untied<S(!new)>(setup: Setup<S>, stream: seq<real>, whole: seq<Plane>, backward: Backing, cut: nat, forward: S)
    requires Tied(setup, stream, whole, backward, cut, forward)
    ensures whole == setup.Forward(stream) && backward == setup.filter.Backing() && setup.StateIs(stream, cut, forward)
  {
    assert Look(TheTied, 0);
  }

  lemma PlanesJoined<S(!new)>(setup: Setup<S>, stream: seq<real>, more: seq<real>)
    ensures setup.Planes(stream + more) == setup.Planes(stream) + setup.Planes(more)
  {
  }

  /** Past the margin nothing before what is heard changes as more is. */
  lemma Longer<S(!new)>(
    setup: Setup<S>, stream: seq<real>, whole: seq<Plane>, backward: Backing, cut: nat, forward: S, more: seq<real>)
    requires setup.Valid() && setup.margin < |stream| && Tied(setup, stream, whole, backward, cut, forward)
    ensures Tied(setup, stream + more, setup.Forward(stream + more), backward, cut, forward)
    ensures Begins(whole, setup.Forward(stream + more)) && |whole| == |stream|
    ensures Laned(setup.Forward(stream + more), setup.filter.lanes)
  {
    Untied(setup, stream, whole, backward, cut, forward);
    BegunAlike(setup, stream, more);
    PlanesJoined(setup, stream, more);
    setup.filter.StateJoined(setup.Begun(stream), setup.Planes(stream), setup.Planes(more), cut);
    setup.filter.RunJoined(setup.Begun(stream), setup.Planes(stream), setup.Planes(more));
    PlanesLaned(setup, stream + more);
  }

  lemma BegunAlike<S(!new)>(setup: Setup<S>, stream: seq<real>, more: seq<real>)
    requires setup.margin < |stream|
    ensures setup.Begun(stream + more) == setup.Begun(stream)
  {
    assert Mirrored(stream + more, setup.margin) == Mirrored(stream, setup.margin);
  }

  /** The samples past those already passed run forwards. */
  method Pass<S(!new)>(filter: Filter<S>, before: S, samples: seq<real>) returns (forward: S, newly: seq<Plane>)
    ensures forward == filter.StateAfter(before, Broadcast(samples, filter.lanes))
    ensures newly == filter.Run(before, Broadcast(samples, filter.lanes))
  {
    forward, newly := before, [];
    ghost var planes := Broadcast(samples, filter.lanes);
    for k := 0 to |samples|
      invariant forward == filter.StateAfter(before, planes[..k])
      invariant newly == filter.Run(before, planes[..k])
    {
      assert planes[..k + 1] == planes[..k] + [planes[k]];
      filter.RunMore(before, planes[..k], planes[k]);
      var (next, passed) := filter.step(forward, seq(filter.lanes, _ => samples[k]));
      forward, newly := next, newly + [passed];
    }
    assert planes[..|samples|] == planes;
  }

  lemma PassedOn<S(!new)>(setup: Setup<S>, begun: S, stream: seq<real>, cut: nat, forward: S)
    requires cut <= |stream| && forward == setup.filter.StateAt(begun, setup.Planes(stream), cut)
    ensures setup.filter.StateAfter(forward, setup.Planes(stream[cut..]))
      == setup.filter.StateAt(begun, setup.Planes(stream), |stream|)
    ensures setup.filter.Run(forward, setup.Planes(stream[cut..]))
      == Stretch(setup.filter.Run(begun, setup.Planes(stream)), cut, |stream|)
  {
    var one, other := setup.Planes(stream[..cut]), setup.Planes(stream[cut..]);
    assert stream == stream[..cut] + stream[cut..];
    PlanesJoined(setup, stream[..cut], stream[cut..]);
    assert forward == setup.filter.StateAfter(begun, one) by {
      assert setup.Planes(stream)[..cut] == one;
    }
    setup.filter.RunJoined(begun, one, other);
    assert setup.Planes(stream)[..|stream|] == setup.Planes(stream);
    JoinedStretch(setup.filter.Run(begun, one), setup.filter.Run(forward, other));
  }

  lemma JoinedStretch<T>(one: seq<T>, other: seq<T>)
    ensures Stretch(one + other, |one|, |one| + |other|) == other
  {
  }

  // ---------------------------------------------------------------- reading what is settled

  /** The reading keeps the last rows, and the tiles hold what all of them read as. */
  ghost predicate Noted(reading: Reading, tiles: Tiles, rows: seq<Row>)
    reads reading, tiles
    ensures Noted(reading, tiles, rows) ==> reading.levels >= 2
  {
    && reading.Valid() && Level(rows, reading.levels) && reading.window == Kept(rows, reading.levels)
    && tiles.width == |reading.tree| && tiles.Holds(Read(reading.tree, rows, reading.levels), |rows|)
  }

  /** Settled frames read into the tiles, in runs no longer than are read at once and none of
      them past the end of a tile. */
  method ReadSettled(
    reading: Reading, tiles: Tiles, planes: seq<Plane>, heard: seq<real>, base: nat, readAtOnce: nat,
    ghost rows: seq<Row>)
    requires Noted(reading, tiles, rows) && base == |rows| && |planes| == |heard| && readAtOnce > 0
    requires Laned(planes, reading.levels - 2)
    modifies reading`window, tiles`frames, tiles`loudest
    ensures Noted(reading, tiles, rows + RowsOf(planes, heard))
  {
    var at := 0;
    ghost var all := RowsOf(planes, heard);
    assert rows + all[..0] == rows;
    while at < |planes|
      invariant at <= |planes| && Noted(reading, tiles, rows + all[..at])
      decreases |planes| - at
    {
      at := ReadRun(reading, tiles, planes, heard, base, readAtOnce, at, rows, all);
    }
    assert all[..|planes|] == all;
  }

  method ReadRun(
    reading: Reading, tiles: Tiles, planes: seq<Plane>, heard: seq<real>, base: nat, readAtOnce: nat, at: nat,
    ghost rows: seq<Row>, ghost all: seq<Row>)
    returns (next: nat)
    requires at < |planes| == |heard| && base == |rows| && readAtOnce > 0
    requires all == RowsOf(planes, heard) && Noted(reading, tiles, rows + all[..at])
    requires Laned(planes, reading.levels - 2)
    modifies reading`window, tiles`frames, tiles`loudest
    ensures at < next <= |planes| && Noted(reading, tiles, rows + all[..next])
  {
    ghost var before := rows + all[..at];
    ghost var heights := Read(reading.tree, before, reading.levels);
    var frame := base + at;
    var left := tiles.FramesLeftOfTheTileHolding(frame, heights, frame);
    next := at + Smallest(left, readAtOnce, |planes| - at);
    RunIs(planes, heard, rows, all, at, next);
    ReadFrames(reading, tiles, planes[at..next], heard[at..next], frame, before, heights, left);
  }

  /** One run of frames, all of one tile. */
  method ReadFrames(
    reading: Reading, tiles: Tiles, planes: seq<Plane>, heard: seq<real>, frame: nat, ghost before: seq<Row>,
    ghost heights: seq<Heights>, ghost left: nat)
    requires 0 < |planes| == |heard| <= left && frame == |before|
    requires reading.Valid() && Level(before, reading.levels) && reading.window == Kept(before, reading.levels)
    requires tiles.width == |reading.tree| && heights == Read(reading.tree, before, reading.levels)
    requires tiles.Holds(heights, frame + 1) && Laned(planes, reading.levels - 2)
    requires forall f | frame <= f < frame + left :: TileOf(f, tiles.frames) == TileOf(frame, tiles.frames)
    modifies reading`window, tiles`frames, tiles`loudest
    ensures Noted(reading, tiles, before + RowsOf(planes, heard))
  {
    ghost var run := RowsOf(planes, heard);
    RowsLevel(planes, heard, reading.levels - 2);
    ReadOn(reading.tree, before, run, reading.levels);
    reading.TakeIn(planes, heard);
    var tile := tiles.Holding(frame, heights, frame + 1);
    ghost var window := reading.window;
    ghost var more := ReadFrom(reading.tree, window, reading.levels);
    ReadIntoTile(reading, tiles, tile, heights, more);
    assert window == Kept(before, reading.levels) + run;
    assert Read(reading.tree, before + run, reading.levels) == heights + more;
  }

  method ReadIntoTile(reading: Reading, tiles: Tiles, tile: nat, ghost heights: seq<Heights>, ghost more: seq<Heights>)
    requires reading.Valid() && tiles.width == |reading.tree|
    requires more == ReadFrom(reading.tree, reading.window, reading.levels)
    requires tiles.Holds(heights, |heights| + 1) && |more| > 0 && tile < |tiles.loudest|
    requires forall f | |heights| <= f < |heights| + |more| :: TileOf(f, tiles.frames) == tile
    modifies reading`window, tiles`loudest
    ensures reading.Valid() && reading.window == LastOf(old(reading.window))
    ensures tiles.Holds(heights + more, |heights| + |more|)
  {
    var louder := reading.ReadInto(tiles.loudest[tile]);
    tiles.Raise(tile, louder, heights, more);
  }

  lemma RunIs(planes: seq<Plane>, heard: seq<real>, rows: seq<Row>, all: seq<Row>, at: nat, next: nat)
    requires |planes| == |heard| && at <= next <= |planes| && all == RowsOf(planes, heard)
    ensures rows + all[..at] + RowsOf(planes[at..next], heard[at..next]) == rows + all[..next]
  {
    assert RowsOf(planes[at..next], heard[at..next]) == all[at..next];
    assert all[..next] == all[..at] + all[at..next];
    Regrouped(rows, all[..at], all[at..next]);
  }

  function Smallest(one: nat, other: nat, another: nat): nat {
    if one <= other && one <= another then one else if other <= another then other else another
  }

  /** What is read of the planes settled so far, folded. */
  ghost predicate NotedSoFar(reading: Reading, tiles: Tiles, settled: seq<Plane>, heard: seq<real>)
    requires |settled| == |heard|
    reads reading, tiles
  {
    forall at: nat {:trigger Look(TheNoted, at)} | Look(TheNoted, at) :: Noted(reading, tiles, RowsOf(settled, heard))
  }

  /** The tiles are those of what the course has settled. */
  ghost predicate CourseNoted<S(!new)>(reading: Reading, tiles: Tiles, course: Course<S>)
    reads reading, tiles
  {
    && |course.settled| == course.base <= |course.stream|
    && NotedSoFar(reading, tiles, course.settled, course.stream[..course.base])
  }

  method ReadMore(
    reading: Reading, tiles: Tiles, more: seq<Plane>, heard: seq<real>, base: nat, readAtOnce: nat,
    ghost settled: seq<Plane>, ghost stream: seq<real>)
    requires |settled| == base <= |stream| && NotedSoFar(reading, tiles, settled, stream[..base]) && readAtOnce > 0
    requires |more| <= |heard| && heard == From(stream, base)
    requires reading.levels >= 2 && Laned(more, reading.levels - 2)
    modifies reading`window, tiles`frames, tiles`loudest
    ensures base + |more| <= |stream| && NotedSoFar(reading, tiles, settled + more, stream[..base + |more|])
  {
    assert Look(TheNoted, 0);
    ReadSettled(reading, tiles, more, heard[..|more|], base, readAtOnce, RowsOf(settled, stream[..base]));
    RowsJoined(settled, stream, base, more, heard);
  }

  // ---------------------------------------------------------------- settling what is passed

  /** The orders in which a crew may come to finish the chunks, each of them once. */
  type Turns = nat -> seq<nat>

  ghost predicate Each(turns: Turns) {
    forall chunks {:trigger turns(chunks)} :: EachOf(turns(chunks), chunks)
  }

  ghost predicate EachOf(order: seq<nat>, chunks: nat) {
    && (forall i, j | 0 <= i < j < |order| :: order[i] != order[j])
    && forall nth :: nth in order <==> nth < chunks
  }

  /** The chunks settled in place, on the crew where there is one and more than one chunk. */
  method SettleChunks<S(!new)>(
    filter: Filter<S>, passed: array<Plane>, chunks: nat, chunk: nat, margin: nat, crew: Option<Turns>)
    requires chunks > 0 ==> Start(chunks, chunk) + margin <= passed.Length
    requires crew.Some? ==> Each(crew.value)
    modifies passed
    ensures passed[..] == SettledFirst(filter.Backing(), old(passed[..]), chunks, chunk, margin)
  {
    if chunks > 1 && crew.Some? {
      assert EachOf(crew.value(chunks), chunks);
      SettleStatesFirst(filter, passed, chunks, chunk, margin, crew.value(chunks));
    } else {
      SettleInOrder(filter, passed, chunks, chunk, margin);
    }
  }

  /** As many of the chunks held as have a whole margin ahead of them, settled. */
  method Settle<S(!new)>(setup: Setup<S>, held: seq<Plane>, crew: Option<Turns>) returns (settled: seq<Plane>)
    requires setup.chunk > 0 && (crew.Some? ==> Each(crew.value))
    ensures settled == ChunksSettled(setup.filter.Backing(), held, 0, setup.chunk, setup.margin)
  {
    var chunks := if |held| < setup.margin then 0 else TileOf(|held| - setup.margin, setup.chunk);
    if |held| >= setup.margin {
      StartOfTile(|held| - setup.margin, setup.chunk);
    }
    var planes := new Plane[|held|](i requires 0 <= i < |held| => held[i]);
    assert planes[..] == held;
    SettleChunks(setup.filter, planes, chunks, setup.chunk, setup.margin, crew);
    HeldSettled(setup.filter.Backing(), held, chunks, Start(chunks, setup.chunk), setup.chunk, setup.margin);
    settled := planes[..Start(chunks, setup.chunk)];
  }

  // ---------------------------------------------------------------- how far a bank has come

  /** What a bank holds of its stream, and the whole it is part of. */
  datatype Course<!S(!new)> = Course(
    stream: seq<real>, heard: seq<real>, passed: seq<Plane>, whole: seq<Plane>, backward: Backing, base: nat, cut: nat,
    forward: S, settled: seq<Plane>)

  ghost predicate Going<S(!new)>(setup: Setup<S>, course: Course<S>)
    requires setup.chunk > 0
  {
    && Keeps(course.backward) && KeepsLanes(course.backward, setup.filter.lanes)
    && Tied(setup, course.stream, course.whole, course.backward, course.cut, course.forward)
    && Held(course.stream, course.heard, course.whole, course.passed, course.base)
    && Laned(course.whole, setup.filter.lanes) && Laned(course.settled, setup.filter.lanes)
    && |course.settled| == course.base
    && SettledSoFar(course.backward, course.whole, setup.chunk, setup.margin, course.base, course.settled)
  }

  /** The same, folded. */
  ghost predicate Goes<S(!new)>(setup: Setup<S>, course: Course<S>)
    requires setup.chunk > 0
  {
    && |course.settled| == course.base <= |course.stream| == |course.whole| && |course.passed| <= |course.heard|
    && |course.heard| == |course.stream| - course.base && course.cut == course.base + |course.passed|
    && forall at: nat {:trigger Look(TheCourse, at)} | Look(TheCourse, at) :: Going(setup, course)
  }

  lemma Starts<S(!new)>(setup: Setup<S>, stream: seq<real>) returns (course: Course<S>)
    requires setup.Valid()
    ensures Goes(setup, course) && course.stream == course.heard == stream
    ensures course.passed == [] && course.settled == []
    ensures course.base == course.cut == 0 && course.forward == setup.Begun(stream)
  {
    course := Course(stream, stream, [], setup.Forward(stream), setup.filter.Backing(), 0, 0, setup.Begun(stream), []);
    PlanesLaned(setup, stream);
    BackingKeepsLanes(setup.filter);
    assert From(stream, 0) == stream;
  }

  lemma Hears<S(!new)>(setup: Setup<S>, course: Course<S>, more: seq<real>) returns (longer: seq<Plane>)
    requires setup.Valid() && setup.margin < |course.stream| && Goes(setup, course)
    ensures Goes(setup, course.(stream := course.stream + more, heard := course.heard + more, whole := longer))
  {
    longer := setup.Forward(course.stream + more);
    assert Look(TheCourse, 0);
    Longer(setup, course.stream, course.whole, course.backward, course.cut, course.forward, more);
    HeldGrows(course.stream, course.heard, course.whole, course.passed, course.base, more, longer);
    SoFarGrows(course.backward, course.whole, longer, setup.chunk, setup.margin, course.base, course.settled);
  }

  lemma Passes<S(!new)>(setup: Setup<S>, course: Course<S>, newly: seq<Plane>, after: S)
    requires setup.chunk > 0 && Goes(setup, course)
    requires newly == Stretch(course.whole, course.cut, |course.whole|)
    requires Tied(setup, course.stream, course.whole, course.backward, |course.stream|, after)
    ensures Goes(setup, course.(passed := course.passed + newly, cut := |course.stream|, forward := after))
  {
    assert Look(TheCourse, 0);
    HeldAll(course.stream, course.heard, course.whole, course.passed, course.base, newly);
  }

  /** The rest of what is heard run forwards. */
  method PassRest<S(!new)>(setup: Setup<S>, before: S, rest: seq<real>, ghost course: Course<S>)
    returns (forward: S, newly: seq<Plane>)
    requires setup.Valid() && Goes(setup, course)
    requires before == course.forward && rest == course.heard[|course.passed|..]
    ensures |newly| == |course.heard| - |course.passed|
    ensures Goes(setup, course.(passed := course.passed + newly, cut := |course.stream|, forward := forward))
  {
    forward, newly := Pass(setup.filter, before, rest);
    RestPassed(setup, course, rest, forward, newly);
    Passes(setup, course, newly, forward);
  }

  lemma RestPassed<S(!new)>(setup: Setup<S>, course: Course<S>, rest: seq<real>, forward: S, newly: seq<Plane>)
    requires setup.Valid() && Goes(setup, course) && rest == course.heard[|course.passed|..]
    requires forward == setup.filter.StateAfter(course.forward, setup.Planes(rest))
    requires newly == setup.filter.Run(course.forward, setup.Planes(rest))
    ensures newly == Stretch(course.whole, course.cut, |course.whole|)
    ensures Tied(setup, course.stream, course.whole, course.backward, |course.stream|, forward)
    ensures |newly| == |course.heard| - |course.passed|
  {
    assert Look(TheCourse, 0);
    Untied(setup, course.stream, course.whole, course.backward, course.cut, course.forward);
    assert rest == course.stream[course.cut..] by {
      assert Look(TheHeld, 0);
    }
    PassedOn(setup, setup.Begun(course.stream), course.stream, course.cut, course.forward);
  }

  /** What a course becomes as chunks of it are given up. */
  ghost function GivenUp<S(!new)>(course: Course<S>, more: seq<Plane>): (next: Course<S>)
    requires |more| <= |course.passed| <= |course.heard|
  {
    Course(course.stream, course.heard[|more|..], course.passed[|more|..], course.whole, course.backward,
      course.base + |more|, course.cut, course.forward, course.settled + more)
  }

  lemma Settles<S(!new)>(setup: Setup<S>, course: Course<S>, more: seq<Plane>)
    requires setup.Valid() && Goes(setup, course)
    requires Keeps(course.backward)
    requires more == ChunksSettled(course.backward, course.passed, 0, setup.chunk, setup.margin)
    ensures |more| <= |course.passed| < |more| + setup.chunk + setup.margin && Laned(more, setup.filter.lanes)
    ensures course.heard == From(course.stream, course.base)
    ensures Goes(setup, GivenUp(course, more))
  {
    assert Look(TheCourse, 0);
    HeldFrom(course.stream, course.heard, course.whole, course.passed, course.base);
    GoingOn(setup, course, more);
  }

  lemma GoingOn<S(!new)>(setup: Setup<S>, course: Course<S>, more: seq<Plane>)
    requires setup.Valid() && Going(setup, course)
    requires more == ChunksSettled(course.backward, course.passed, 0, setup.chunk, setup.margin)
    ensures |more| <= |course.passed| < |more| + setup.chunk + setup.margin && Laned(more, setup.filter.lanes)
    ensures |more| <= |course.heard| && Going(setup, GivenUp(course, more))
  {
    ChunksGivenUp(course.backward, course.whole, course.stream, course.heard, course.passed, course.base, setup.chunk,
      setup.margin, setup.filter.lanes, course.settled, more);
    LanedJoined(course.settled, more, setup.filter.lanes);
  }

  lemma BackwardIs<S(!new)>(setup: Setup<S>, course: Course<S>)
    requires setup.chunk > 0 && Goes(setup, course)
    ensures course.backward == setup.filter.Backing() && Keeps(course.backward)
  {
    assert Look(TheCourse, 0);
    assert Look(TheTied, 0);
  }

  lemma LanedJoined(one: seq<Plane>, other: seq<Plane>, lanes: nat)
    requires Laned(one, lanes) && Laned(other, lanes)
    ensures Laned(one + other, lanes)
  {
  }

  lemma HeldFrom<T>(stream: seq<real>, heard: seq<real>, whole: seq<T>, passed: seq<T>, base: nat)
    requires Held(stream, heard, whole, passed, base)
    ensures heard == From(stream, base)
  {
    assert Look(TheHeld, 0);
  }

  method SettleCourse<S(!new)>(setup: Setup<S>, passed: seq<Plane>, crew: Option<Turns>, ghost course: Course<S>)
    returns (more: seq<Plane>)
    requires setup.Valid() && Goes(setup, course) && (crew.Some? ==> Each(crew.value)) && passed == course.passed
    ensures Keeps(course.backward) && more == ChunksSettled(course.backward, passed, 0, setup.chunk, setup.margin)
  {
    more := Settle(setup, passed, crew);
    BackwardIs(setup, course);
  }

  /** Chunks settled and read into the tiles. */
  method SettleMore<S(!new)>(
    setup: Setup<S>, reading: Reading, tiles: Tiles, passed: seq<Plane>, heard: seq<real>, base: nat,
    crew: Option<Turns>,
    ghost course: Course<S>)
    returns (more: seq<Plane>)
    requires setup.Valid() && Goes(setup, course) && (crew.Some? ==> Each(crew.value))
    requires passed == course.passed && heard == course.heard && base == course.base && reading.levels == setup.Levels()
    requires CourseNoted(reading, tiles, course)
    modifies reading`window, tiles`frames, tiles`loudest
    ensures |more| <= |passed| < |more| + setup.chunk + setup.margin && base + |more| <= |course.stream|
    ensures Goes(setup, GivenUp(course, more)) && CourseNoted(reading, tiles, GivenUp(course, more))
  {
    more := SettleCourse(setup, passed, crew, course);
    Settles(setup, course, more);
    ReadGivenUp(reading, tiles, more, heard, base, setup.readAtOnce, course);
  }

  method ReadGivenUp<S(!new)>(
    reading: Reading, tiles: Tiles, more: seq<Plane>, heard: seq<real>, base: nat, readAtOnce: nat,
    ghost course: Course<S>)
    requires CourseNoted(reading, tiles, course) && readAtOnce > 0 && base == course.base && heard == course.heard
    requires |more| <= |course.passed| <= |heard| && heard == From(course.stream, base)
    requires reading.levels >= 2 && Laned(more, reading.levels - 2)
    modifies reading`window, tiles`frames, tiles`loudest
    ensures base + |more| <= |course.stream| && CourseNoted(reading, tiles, GivenUp(course, more))
  {
    ReadMore(reading, tiles, more, heard, base, readAtOnce, course.settled, course.stream);
    GivenUpNoted(reading, tiles, course, base, more);
  }

  lemma GivenUpNoted<S(!new)>(reading: Reading, tiles: Tiles, course: Course<S>, base: nat, more: seq<Plane>)
    requires |more| <= |course.passed| <= |course.heard|
    requires |course.settled| == course.base == base && base + |more| <= |course.stream|
    requires NotedSoFar(reading, tiles, course.settled + more, course.stream[..base + |more|])
    ensures CourseNoted(reading, tiles, GivenUp(course, more))
  {
    assert course.stream[..base + |more|] == course.stream[..GivenUp(course, more).base];
  }

  // ---------------------------------------------------------------- the bank

  class Bank<S(!new)> {
    const setup: Setup<S>
    const index: nat
    const width: nat
    const reading: Reading
    const tiles: Tiles
    var heard: seq<real>
    var passed: seq<Plane>
    var begun: bool
    var base: nat
    var forward: S
    ghost var stream: seq<real>
    ghost var whole: seq<Plane>
    ghost var settled: seq<Plane>
    ghost var backward: Backing

    ghost function Now(): Course<S>
      reads this
    {
      Course(stream, heard, passed, whole, backward, base, base + |passed|, forward, settled)
    }

    /** All the bank holds follows from the stream noted so far. */
    ghost predicate Valid()
      reads this, reading, tiles
    {
      && setup.Valid() && index < width && reading.tree == setup.tree && reading.levels == setup.Levels()
      && tiles.each == setup.each && tiles.most == setup.most
      && forall at: nat {:trigger Look(TheBank, at)} | Look(TheBank, at) :: Follows()
    }

    ghost predicate Follows()
      requires setup.chunk > 0
      reads this, reading, tiles
    {
      && (if begun then Goes(setup, Now()) else NotBegun())
      && CourseNoted(reading, tiles, Now())
    }

    ghost predicate NotBegun()
      reads this
    {
      && heard == stream && passed == [] && base == 0 && settled == [] && forward == setup.filter.silent
    }

    /** Passing begins as soon as there is more than a margin of the stream. */
    ghost predicate Open()
      reads this
    {
      begun <==> setup.margin < |stream|
    }

    constructor (setup: Setup<S>, index: nat, width: nat)
      requires setup.Valid() && index < width
      ensures Valid() && Open() && stream == [] && this.setup == setup && this.index == index && this.width == width
      ensures fresh(reading) && fresh(tiles)
    {
      this.setup := setup;
      this.index := index;
      this.width := width;
      this.heard, this.passed, this.begun, this.base := [], [], false, 0;
      this.forward := setup.filter.silent;
      this.stream, this.whole, this.settled := [], [], [];
      this.backward := setup.filter.Backing();
      var silent := new Reading.Silent(setup.tree, setup.Levels());
      var each := new Tiles.Each(setup.each, setup.most, |setup.tree|);
      this.reading := silent;
      this.tiles := each;
      new;
      assert RowsOf(settled, stream[..base]) == [];
      assert Read(setup.tree, [], setup.Levels()) == [];
    }

    method Note(interleaved: seq<real>, crew: Option<Turns>)
      requires Valid() && Open() && (crew.Some? ==> Each(crew.value))
      modifies this`heard, this`passed, this`begun, this`base, this`forward, this`stream,
        this`whole, this`backward, this`settled
      modifies reading`window, tiles`frames, tiles`loudest
      ensures Valid() && Open() && stream == old(stream) + Lane(interleaved, index, width)
    {
      Hear(Lane(interleaved, index, width));
      if !begun {
        if |heard| <= setup.margin {
          return;
        }
        Begin();
      }
      PassAndSettle(crew);
    }

    method Hear(more: seq<real>)
      requires Valid() && Open()
      modifies this`heard, this`stream, this`whole
      ensures Valid() && stream == old(stream) + more && (if begun then Open() else heard == stream)
    {
      assert Look(TheBank, 0);
      ghost var was := Now();
      Kept(stream, base, more);
      if begun {
        whole := Hears(setup, was, more);
      }
      heard, stream := heard + more, stream + more;
      assert Now() == was.(stream := was.stream + more, heard := was.heard + more, whole := whole);
      assert Follows();
    }

    lemma Kept(stream: seq<real>, base: nat, more: seq<real>)
      requires base <= |stream|
      ensures (stream + more)[..base] == stream[..base]
    {
    }

    /** The state run over the start of the stream backwards. */
    method Begin()
      requires Valid() && !begun
      modifies this`forward, this`begun, this`whole, this`backward
      ensures Valid() && begun
    {
      assert Look(TheBank, 0);
      forward := RunBack(setup, heard, forward);
      ghost var course := Starts(setup, stream);
      whole, backward := course.whole, course.backward;
      begun := true;
      assert Now() == course;
    }

    /** What has come since is passed forwards, while the chunks that have a whole margin ahead
        of them are settled, read into the tiles and given up. */
    method PassAndSettle(crew: Option<Turns>)
      requires Valid() && begun && (crew.Some? ==> Each(crew.value))
      modifies this`heard, this`passed, this`base, this`forward, this`settled
      modifies reading`window, tiles`frames, tiles`loudest
      ensures Valid() && |passed| == |heard| && begun && |settled| == base <= |stream|
      ensures old(|passed| == |heard|) ==> |heard| < setup.chunk + setup.margin
    {
      SettleHeld(crew);
      assert Look(TheBank, 0);
      ghost var was := Now();
      var after, newly := PassRest(setup, forward, heard[|passed|..], was);
      forward, passed := after, passed + newly;
      assert Now() == was.(passed := was.passed + newly, cut := |was.stream|, forward := after);
      assert Follows();
    }

    method SettleHeld(crew: Option<Turns>)
      requires Valid() && begun && (crew.Some? ==> Each(crew.value))
      modifies this`heard, this`passed, this`base, this`settled
      modifies reading`window, tiles`frames, tiles`loudest
      ensures Valid() && |passed| < setup.chunk + setup.margin
      ensures |heard| - |passed| == old(|heard| - |passed|)
    {
      assert Look(TheBank, 0);
      ghost var was := Now();
      var more := SettleMore(setup, reading, tiles, passed, heard, base, crew, was);
      heard, passed, base := heard[|more|..], passed[|more|..], base + |more|;
      settled := settled + more;
      assert Now() == GivenUp(was, more);
      assert Follows();
    }

    /** The rest of the stream passed, settled from its end mirrored, and read with the
        midpoints after the last frame. */
    method Finished(crew: Option<Turns>) returns (tiled: Tiled)
      requires Valid() && (crew.Some? ==> Each(crew.value))
      modifies this`heard, this`passed, this`begun, this`base, this`forward, this`whole, this`backward, this`settled
      modifies reading`window, tiles`frames, tiles`loudest
      ensures tiled == TilesOf(setup, stream)
    {
      if !begun {
        Begin();
      }
      PassAndSettle(crew);
      PassAndSettle(crew);
      tiled := FinishedTail();
    }

    method FinishedTail() returns (tiled: Tiled)
      requires Valid() && begun && |passed| == |heard| < setup.chunk + setup.margin
      modifies reading`window, tiles`frames, tiles`loudest
      ensures tiled == TilesOf(setup, stream)
    {
      assert Look(TheBank, 0);
      assert Follows();
      var tail := SettleTail(setup, forward, passed, heard, Now());
      ReadTail(reading, tiles, tail, heard, base, setup.readAtOnce, settled, stream);
      tiled := ReadSilence(reading, tiles, base + |heard|, settled + tail, stream);
      TiledWhole(setup, stream, settled + tail, tiled);
    }
  }

  /** What is left of the stream, run backwards from its end mirrored. */
  method SettleTail<S(!new)>(
    setup: Setup<S>, forward: S, passed: seq<Plane>, heard: seq<real>, ghost course: Course<S>)
    returns (tail: seq<Plane>)
    requires setup.Valid() && Goes(setup, course) && |passed| == |heard| < setup.chunk + setup.margin
    requires forward == course.forward && passed == course.passed && heard == course.heard
    ensures course.settled + tail == setup.SettledWhole(course.stream)
    ensures Laned(tail, setup.filter.lanes) && course.heard == From(course.stream, course.base)
  {
    var after, ahead := Pass(setup.filter, forward, MirroredEnd(heard, Least(setup.margin, |heard|)));
    var planes := new Plane[|passed|](i requires 0 <= i < |passed| => passed[i]);
    assert planes[..] == passed;
    var before := FoundBefore(setup.filter, ahead);
    FinishBackward(setup.filter, planes, 0, |passed|, before);
    tail := planes[..];
    TailOf(setup.filter, passed, before, tail);
    TailIsBacked(setup, course, ahead, tail);
    WholeSettled(setup, course, ahead, tail);
    WholeLaned(setup, course.stream);
    LanedAfter(course.settled, tail, setup.filter.lanes);
    assert Look(TheCourse, 0);
    HeldFrom(course.stream, course.heard, course.whole, course.passed, course.base);
  }

  lemma LanedAfter(one: seq<Plane>, other: seq<Plane>, lanes: nat)
    requires Laned(one + other, lanes)
    ensures Laned(other, lanes)
  {
    forall k | 0 <= k < |other| ensures |other[k]| == lanes {
      assert (one + other)[|one| + k] == other[k];
    }
  }

  lemma TailOf<S(!new)>(filter: Filter<S>, passed: seq<Plane>, before: S, tail: seq<Plane>)
    requires tail == Put(passed, 0, filter.Backwards(Stretch(passed, 0, |passed|), before))
    ensures tail == filter.Backwards(passed, before)
  {
    assert Stretch(passed, 0, |passed|) == passed;
  }

  lemma WholeSettled<S(!new)>(setup: Setup<S>, course: Course<S>, ahead: seq<Plane>, tail: seq<Plane>)
    requires setup.Valid() && Goes(setup, course) && |course.passed| == |course.heard| < setup.chunk + setup.margin
    requires ahead
      == setup.filter.Run(course.forward, setup.Planes(MirroredEnd(course.heard, Least(setup.margin, |course.heard|))))
    requires tail == course.backward(course.passed, ahead)
    ensures course.settled + tail == setup.SettledWhole(course.stream)
  {
    assert Look(TheCourse, 0);
    EndSettled(setup, course);
    AheadIs(setup, course, ahead);
    SettledInTwo(course.backward, course.whole, setup.chunk, setup.margin, course.base, ahead, course.settled, tail);
    WholeIs(setup, course);
    UptoIsWhole(setup, course.stream);
  }

  lemma TailIsBacked<S(!new)>(setup: Setup<S>, course: Course<S>, ahead: seq<Plane>, tail: seq<Plane>)
    requires setup.Valid() && Goes(setup, course)
    requires tail == setup.filter.Backwards(course.passed, setup.filter.StateBefore(ahead))
    ensures tail == course.backward(course.passed, ahead)
  {
    assert Look(TheCourse, 0);
    WholeIs(setup, course);
  }

  lemma UptoIsWhole<S(!new)>(
    setup: Setup<S>, stream: seq<real>)
    requires setup.Valid()
    ensures var end := WholeChunks(setup.chunk, setup.margin, |stream|);
      setup.SettledWhole(stream)
      == SettledUpto(setup.filter.Backing(), setup.Forward(stream), setup.chunk, setup.margin, end,
                     setup.Ahead(stream, |stream| - end))
  {
  }

  lemma EndSettled<S(!new)>(setup: Setup<S>, course: Course<S>)
    requires setup.Valid() && Going(setup, course) && |course.passed| == |course.heard| < setup.chunk + setup.margin
    ensures course.settled == ChunksSettled(course.backward, course.whole, 0, setup.chunk, setup.margin)
    ensures course.base == WholeChunks(setup.chunk, setup.margin, |course.whole|) <= |course.whole|
    ensures course.passed == From(course.whole, course.base)
  {
    assert Look(TheHeld, 0);
    EndReached(course.backward, course.stream, course.heard, course.whole, course.passed, course.base, setup.chunk,
      setup.margin, course.settled);
  }

  lemma WholeIs<S(!new)>(setup: Setup<S>, course: Course<S>)
    requires setup.Valid() && Going(setup, course)
    ensures course.whole == setup.Forward(course.stream) && course.backward == setup.filter.Backing()
  {
    assert Look(TheTied, 0);
  }

  lemma SettledInTwo(
    backward: Backing, whole: seq<Plane>, chunk: nat, margin: nat, base: nat, ahead: seq<Plane>, settled: seq<Plane>,
    tail: seq<Plane>)
    requires Keeps(backward) && chunk > 0 && base <= |whole|
    requires settled == ChunksSettled(backward, whole, 0, chunk, margin) && tail == backward(From(whole, base), ahead)
    ensures settled + tail == SettledUpto(backward, whole, chunk, margin, base, ahead)
  {
  }

  /** With too little held for another chunk, what is settled is every chunk there is. */
  lemma EndReached(
    backward: Backing, stream: seq<real>, heard: seq<real>, whole: seq<Plane>, passed: seq<Plane>, base: nat,
    chunk: nat,
    margin: nat, settled: seq<Plane>)
    requires Keeps(backward) && chunk > 0 && Held(stream, heard, whole, passed, base) && |settled| == base
    requires SettledSoFar(backward, whole, chunk, margin, base, settled)
    requires |passed| == |heard| < chunk + margin
    ensures settled == ChunksSettled(backward, whole, 0, chunk, margin)
    ensures base == ChunksEnd(0, chunk, margin, |whole|) && passed == From(whole, base)
  {
    assert Look(TheSettled, 0);
    assert Look(TheHeld, 0);
  }

  lemma AheadIs<S(!new)>(setup: Setup<S>, course: Course<S>, ahead: seq<Plane>)
    requires setup.Valid() && Going(setup, course) && course.cut == |course.stream|
    requires ahead
      == setup.filter.Run(course.forward, setup.Planes(MirroredEnd(course.heard, Least(setup.margin, |course.heard|))))
    ensures ahead == setup.Ahead(course.stream, |course.heard|)
  {
    assert Look(TheTied, 0);
    EndMirrored(course.stream, course.heard, course.whole, course.passed, course.base, setup.margin);
    assert setup.Planes(course.stream)[..|course.stream|] == setup.Planes(course.stream);
  }

  lemma EndMirrored<T>(stream: seq<real>, heard: seq<real>, whole: seq<T>, passed: seq<T>, base: nat, margin: nat)
    requires Held(stream, heard, whole, passed, base)
    ensures MirroredEnd(heard, Least(margin, |heard|)) == MirroredEnd(stream, Least(margin, |heard|))
  {
    assert Look(TheHeld, 0);
  }

  method ReadTail(
    reading: Reading, tiles: Tiles, tail: seq<Plane>, heard: seq<real>, base: nat, readAtOnce: nat,
    ghost settled: seq<Plane>, ghost stream: seq<real>)
    requires |settled| == base <= |stream| && NotedSoFar(reading, tiles, settled, stream[..base]) && readAtOnce > 0
    requires |tail| == |heard| && heard == From(stream, base)
    requires reading.levels >= 2 && Laned(tail, reading.levels - 2)
    modifies reading`window, tiles`frames, tiles`loudest
    ensures NotedSoFar(reading, tiles, settled + tail, stream)
  {
    if |heard| > 0 {
      assert stream[..base + |tail|] == stream;
      ReadMore(reading, tiles, tail, heard, base, readAtOnce, settled, stream);
    } else {
      assert settled + tail == settled && stream[..base] == stream;
    }
  }

  lemma TiledWhole<S(!new)>(setup: Setup<S>, stream: seq<real>, settled: seq<Plane>, tiled: Tiled)
    requires setup.Valid() && settled == setup.SettledWhole(stream) && Level(RowsOf(settled, stream), setup.Levels())
    requires tiled == TilesOver(setup.tree, RowsOf(settled, stream), setup.Levels(), setup.each, setup.most)
    ensures tiled == TilesOf(setup, stream)
  {
  }

  /** The midpoints after the last frame counted with the tile that holds it. */
  method ReadSilence(
    reading: Reading, tiles: Tiles, frames: nat, ghost settled: seq<Plane>, ghost stream: seq<real>)
    returns (tiled: Tiled)
    requires |settled| == |stream| == frames && NotedSoFar(reading, tiles, settled, stream)
    modifies reading`window, tiles`frames, tiles`loudest
    ensures reading.Valid() && Level(RowsOf(settled, stream), reading.levels) && tiles.Shaped()
    ensures tiled == TilesOver(reading.tree, RowsOf(settled, stream), reading.levels, tiles.each, tiles.most)
  {
    assert Look(TheNoted, 0);
    ghost var rows := RowsOf(settled, stream);
    ghost var heights := Read(reading.tree, rows, reading.levels);
    var last := if frames == 0 then 0 else frames - 1;
    reading.TakeInSilence(LAST_MIDPOINT_FRAMES);
    assert reading.window == Kept(rows, reading.levels) + Silents(LAST_MIDPOINT_FRAMES, reading.levels);
    var tile := tiles.Holding(last, heights, frames);
    ghost var held := tiles.loudest;
    var louder := reading.ReadInto(tiles.loudest[tile]);
    tiles.loudest := tiles.loudest[tile := louder];
    tiled := Tiled(tiles.frames, tiles.loudest);
    TilesEnd(reading.tree, rows, reading.levels, tiles.each, tiles.most, last, tile, held, louder, tiled);
  }

  method RunBack<S(!new)>(setup: Setup<S>, stream: seq<real>, silent: S) returns (forward: S)
    requires silent == setup.filter.silent
    ensures forward == setup.Begun(stream)
  {
    var before, mirrored := Pass(setup.filter, silent, Mirrored(stream, setup.margin));
    forward := before;
  }

  lemma RowsJoined(settled: seq<Plane>, stream: seq<real>, base: nat, more: seq<Plane>, heard: seq<real>)
    requires |settled| == base <= |stream| && heard == From(stream, base) && |more| <= |heard|
    ensures RowsOf(settled, stream[..base]) + RowsOf(more, heard[..|more|])
         == RowsOf(settled + more, stream[..base + |more|])
  {
  }

  lemma ChunksGivenUp(
    backward: Backing, whole: seq<Plane>, stream: seq<real>, heard: seq<real>, passed: seq<Plane>, base: nat,
    chunk: nat,
    margin: nat, lanes: nat, settled: seq<Plane>, more: seq<Plane>)
    requires Keeps(backward) && KeepsLanes(backward, lanes) && Laned(whole, lanes) && chunk > 0
    requires Held(stream, heard, whole, passed, base) && SettledSoFar(backward, whole, chunk, margin, base, settled)
    requires more == ChunksSettled(backward, passed, 0, chunk, margin)
    ensures |more| <= |passed| < |more| + chunk + margin && Laned(more, lanes)
    ensures Held(stream, heard[|more|..], whole, passed[|more|..], base + |more|)
    ensures SettledSoFar(backward, whole, chunk, margin, base + |more|, settled + more)
  {
    HeldBegins(stream, heard, whole, passed, base);
    SoFarMore(backward, stream, heard, whole, passed, base, chunk, margin, settled, more);
    HeldLess(stream, heard, whole, passed, base, |more|);
    HeldLaned(stream, heard, whole, passed, base, lanes);
    SettledKeepsLanes(backward, passed, 0, chunk, margin, lanes);
  }

  lemma HeldLaned(stream: seq<real>, heard: seq<real>, whole: seq<Plane>, passed: seq<Plane>, base: nat, lanes: nat)
    requires Held(stream, heard, whole, passed, base) && Laned(whole, lanes)
    ensures Laned(passed, lanes)
  {
    assert Look(TheHeld, 0);
  }

  lemma TilesEnd(
    tree: Tree, rows: seq<Row>, levels: nat, each: nat, most: nat, last: nat, tile: nat, held: seq<Heights>,
    louder: Heights,
    tiled: Tiled)
    requires Rooted(tree, levels) && Level(rows, levels) && each > 0 && most > 0
    requires last == if rows == [] then 0 else |rows| - 1
    requires tiled.frames == Doubled(each, last, most) && tile == TileOf(last, tiled.frames) && |held| == tile + 1
    requires forall t | 0 <= t < |held| ::
      held[t] == Loudest(Read(tree, rows, levels), |tree|, tiled.frames, t, |Read(tree, rows, levels)|)
    requires |held[tile]| == |tree|
    requires louder == LoudestOver(held[tile], After(tree, rows, levels), LAST_MIDPOINT_FRAMES)
    requires tiled.loudest == held[tile := louder]
    ensures tiled == TilesOver(tree, rows, levels, each, most)
  {
    var whole := TilesOver(tree, rows, levels, each, most);
    forall t | 0 <= t < |held| ensures tiled.loudest[t] == whole.loudest[t] {
    }
    assert tiled.loudest == whole.loudest;
  }

  // ---------------------------------------------------------------- however the stream is cut

  /** A stream of whole frames heard in pieces, cut anywhere between frames and settled by a
      crew or not, comes to what the whole of it comes to. */
  method HeardInPieces<S(!new)>(
    setup: Setup<S>, index: nat, width: nat, pieces: seq<seq<real>>, crew: Option<Turns>)
    returns (tiled: Tiled)
    requires setup.Valid() && index < width && (crew.Some? ==> Each(crew.value))
    requires forall k | 0 <= k < |pieces| :: WholeFrames(pieces[k], width)
    ensures tiled == TilesOf(setup, Lane(Joined(pieces), index, width))
  {
    var bank := new Bank(setup, index, width);
    for k := 0 to |pieces|
      invariant bank.Valid() && bank.Open() && fresh(bank) && fresh(bank.reading) && fresh(bank.tiles)
      invariant bank.setup == setup && bank.index == index && bank.width == width
      invariant WholeFrames(Joined(pieces[..k]), width)
      invariant bank.stream == Lane(Joined(pieces[..k]), index, width)
    {
      assert pieces[..k + 1][..k] == pieces[..k];
      LaneJoined(Joined(pieces[..k]), pieces[k], index, width);
      WholeJoined(Joined(pieces[..k]), pieces[k], width);
      bank.Note(pieces[k], crew);
    }
    assert pieces[..|pieces|] == pieces;
    tiled := bank.Finished(crew);
  }
}
