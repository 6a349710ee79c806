/** A stream searched for where a coder's frames start, and what was found confirmed further on:
    no more of the stream held than is still to be read, and the same found however it was cut. */
module Steps {
  import opened Wrappers
  import opened Folding
  import opened Places

  const TRIED_FOR_EACH_SEARCH_AT_MOST: nat := 2

  /** One sample of each channel that is listened to. */
  type Frame = seq<real>

  datatype Candidate = Candidate(shape: nat, residue: nat)

  /** What a frame is tallied for: to find where frames start, to confirm that they do, or to
      confirm it once what a coder does between channels is undone. */
  datatype Pass = ToSearch | ToConfirm | ToUndo

  /** A grid of frames a coder may have used: how they lie, how one is tallied from its span and
      where it starts, and what is made of tallies. */
  datatype Grid<!Tally(!new), !Found(!new)> = Grid(
    hop: nat, residues: nat, span: nat, shapes: nat, control: nat, framesASearch: nat, confirmedFrames: nat,
    searches: nat, every: nat,
    tally: (seq<Frame>, nat, nat, Pass) -> Tally, nothing: Tally, add: (Tally, Tally) -> Tally,
    busy: seq<Tally> -> bool, choose: seq<Tally> -> seq<Candidate>,
    measure: (Tally, Tally) -> Found, lattice: Found -> real, coefficients: Found -> nat, undoes: bool,
    judge: (seq<Found>, seq<Found>) -> Option<Found>)
  {
    /** How the candidates are judged, by what each measures as it is and undone, is looked at
        only where they are. */
    ghost predicate Valid() {
      && (forall fold: nat {:trigger Look(TheJudge, fold)} | Look(TheJudge, fold) ::
            judge == Judging(lattice, coefficients, undoes))
      && hop > 0 && residues > 0 && framesASearch > 0 && confirmedFrames > 0 && every > 0
      && forall tallies: seq<Tally>, k: nat {:trigger choose(tallies)[k]} | k < |choose(tallies)| ::
           choose(tallies)[k].residue < residues
    }

    /** How much of the stream so many frames lie across. */
    function Extent(frames: nat): (extent: nat) {
      if frames == 0 then 0 else if frames == 1 then span else Extent(frames - 1) + hop
    }

    function SearchedThrough(): (through: nat) {
      residues + Extent(framesASearch)
    }

    function ConfirmedThrough(): (through: nat) {
      residues + control + Extent(confirmedFrames)
    }

    lemma {:induction false} ExtentIs(frames: nat)
      requires frames > 0
      ensures frames * hop >= hop && Extent(frames) == (frames - 1) * hop + span
      decreases frames
    {
      Distributes(frames - 1, 1, hop);
      if frames > 1 {
        ExtentIs(frames - 1);
        Distributes(frames - 2, 1, hop);
      }
    }

    /** As many frames as there is room for, and no more than are confirmed. */
    function FramesIn(room: nat): (frames: nat)
      requires hop > 0
    {
      if room < residues + control + span then 0
      else
        var frames := (room - (residues + control + span)) / hop + 1;
        if frames < confirmedFrames then frames else confirmedFrames
    }

    lemma FramesFit(room: nat)
      requires hop > 0 && confirmedFrames > 0
      ensures FramesIn(room) > 0 ==> residues + control + Extent(FramesIn(room)) <= room
      ensures room >= ConfirmedThrough() ==> FramesIn(room) == confirmedFrames
    {
      ExtentIs(confirmedFrames);
      if room >= residues + control + span {
        var left := room - (residues + control + span);
        var most := left / hop;
        Divided(left, hop);
        ExtentIs(FramesIn(room));
        Steadily(FramesIn(room) - 1, most, hop);
        Steadily(most + 1, confirmedFrames - 1, hop);
        Distributes(most, 1, hop);
      }
    }
  }

  /** Every one of so many frames lies within so much of a stream. */
  predicate Fits<T(!new), F(!new)>(grid: Grid<T, F>, length: nat, start: nat, frames: nat)
    decreases frames
  {
    frames == 0 || (start + grid.span <= length && Fits(grid, length, start + grid.hop, frames - 1))
  }

  lemma {:induction false} ExtentFits<T(!new), F(!new)>(grid: Grid<T, F>, length: nat, start: nat, frames: nat)
    requires frames > 0 ==> start + grid.Extent(frames) <= length
    ensures Fits(grid, length, start, frames)
    decreases frames
  {
    if frames > 1 {
      SpanWithin(grid, frames);
      ExtentFits(grid, length, start + grid.hop, frames - 1);
    }
  }

  lemma {:induction false} SpanWithin<T(!new), F(!new)>(grid: Grid<T, F>, frames: nat)
    requires frames > 0
    ensures grid.span <= grid.Extent(frames)
    decreases frames
  {
    if frames > 1 {
      SpanWithin(grid, frames - 1);
    }
  }

  /** So many frames tallied, one hop after another, on top of what was tallied before. What is
      read starts at a place of its own in the stream. */
  function Run<T(!new), F(!new)>(
    grid: Grid<T, F>, before: T, read: seq<Frame>, from: nat, start: nat, frames: nat, shape: nat, pass: Pass)
    : (tally: T)
    requires Fits(grid, |read|, start, frames)
    decreases frames
  {
    if frames == 0 then before
    else
      var one := grid.tally(read[start..start + grid.span], from + start, shape, pass);
      Run(grid, grid.add(before, one), read, from, start + grid.hop, frames - 1, shape, pass)
  }

  lemma Within<T>(whole: seq<T>, from: nat, many: nat, start: nat, end: nat)
    requires from + many <= |whole| && start <= end <= many
    ensures whole[from..from + many][start..end] == whole[from + start..from + end]
  {
    var part := whole[from..from + many];
    forall k | 0 <= k < end - start
      ensures part[start..end][k] == whole[from + start..from + end][k]
    {
      assert part[start..end][k] == part[start + k] == whole[from + (start + k)];
    }
  }

  /** Frames read of what is held are those of the stream where it is held from. */
  lemma {:induction false} RunOfHeld<T(!new), F(!new)>(
    grid: Grid<T, F>, before: T, stream: seq<Frame>, held: seq<Frame>, from: nat, start: nat, frames: nat, shape: nat,
    pass: Pass)
    requires from + |held| <= |stream| && held == stream[from..from + |held|]
    requires Fits(grid, |held|, start, frames)
    ensures Fits(grid, |stream|, from + start, frames)
    ensures Run(grid, before, held, from, start, frames, shape, pass)
      == Run(grid, before, stream, 0, from + start, frames, shape, pass)
    decreases frames
  {
    if frames > 0 {
      Within(stream, from, |held|, start, start + grid.span);
      var one := grid.tally(held[start..start + grid.span], from + start, shape, pass);
      RunOfHeld(grid, grid.add(before, one), stream, held, from, start + grid.hop, frames - 1, shape, pass);
    }
  }

  // ---------------------------------------------------------------- searching and confirming

  datatype Stage<T, F> =
    | Searching(next: nat, taken: nat, tried: nat, tallies: seq<T>)
    | Confirming(from: nat, candidates: seq<Candidate>)
    | Done(found: Option<F>)

  /** Every shape and residue tallied from a place on. */
  function SearchAt<T(!new), F(!new)>(grid: Grid<T, F>, read: seq<Frame>, from: nat, start: nat): (found: seq<T>)
    requires grid.Valid() && start + grid.SearchedThrough() <= |read|
    ensures |found| == grid.shapes * grid.residues
  {
    seq(grid.shapes * grid.residues, k requires 0 <= k < grid.shapes * grid.residues =>
      TallyAt(grid, read, from, start, k))
  }

  function TallyAt<T(!new), F(!new)>(grid: Grid<T, F>, read: seq<Frame>, from: nat, start: nat, k: nat): (tally: T)
    requires grid.Valid() && start + grid.SearchedThrough() <= |read|
  {
    ExtentFits(grid, |read|, start + k % grid.residues, grid.framesASearch);
    Run(grid, grid.nothing, read, from, start + k % grid.residues, grid.framesASearch, k / grid.residues, ToSearch)
  }

  /** Each candidate measured by its tallies where it is and where it ought not to be. */
  function MeasureAt<T(!new), F(!new)>(
    grid: Grid<T, F>, read: seq<Frame>, from: nat, start: nat, frames: nat, candidates: seq<Candidate>, pass: Pass)
    : (measured: seq<F>)
    requires grid.Valid() && (frames > 0 ==> start + grid.residues + grid.control + grid.Extent(frames) <= |read|)
    requires forall k | 0 <= k < |candidates| :: candidates[k].residue < grid.residues
    ensures |measured| == |candidates|
  {
    seq(|candidates|, k requires 0 <= k < |candidates| =>
      MeasuredAt(grid, read, from, start, frames, candidates[k], pass))
  }

  function MeasuredAt<T(!new), F(!new)>(
    grid: Grid<T, F>, read: seq<Frame>, from: nat, start: nat, frames: nat, candidate: Candidate, pass: Pass)
    : (measured: F)
    requires grid.Valid() && (frames > 0 ==> start + grid.residues + grid.control + grid.Extent(frames) <= |read|)
    requires candidate.residue < grid.residues
  {
    var at := start + candidate.residue;
    ExtentFits(grid, |read|, at, frames);
    ExtentFits(grid, |read|, at + grid.control, frames);
    grid.measure(Run(grid, grid.nothing, read, from, at, frames, candidate.shape, pass),
                 Run(grid, grid.nothing, read, from, at + grid.control, frames, candidate.shape, pass))
  }

  /** The one of the first so many of which a figure is the most, the last of them where more than
      one has it. */
  function Best<F>(measured: seq<F>, figure: F -> real, upto: nat): (best: nat)
    requires 0 < upto <= |measured|
    ensures best < upto && forall k | 0 <= k < upto :: figure(measured[k]) <= figure(measured[best])
    ensures forall k | best < k < upto :: figure(measured[k]) < figure(measured[best])
  {
    if upto == 1 then 0
    else
      var before := Best(measured, figure, upto - 1);
      if figure(measured[upto - 1]) >= figure(measured[before]) then upto - 1 else before
  }

  /** What is found of what was chosen, over as many frames as there are from a place on: the best
      of it, or what that comes to undone where it is better still. */
  function ConfirmAt<T(!new), F(!new)>(
    grid: Grid<T, F>, read: seq<Frame>, from: nat, start: nat, candidates: seq<Candidate>): (found: Option<F>)
    requires grid.Valid() && forall k | 0 <= k < |candidates| :: candidates[k].residue < grid.residues
  {
    var room := if start < |read| then |read| - start else 0;
    grid.FramesFit(room);
    var frames := grid.FramesIn(room);
    grid.judge(MeasureAt(grid, read, from, start, frames, candidates, ToConfirm),
               MeasureAt(grid, read, from, start, frames, candidates, ToUndo))
  }

  function Judging<F(!new)>(lattice: F -> real, coefficients: F -> nat, undoes: bool)
    : (judging: (seq<F>, seq<F>) -> Option<F>)
  {
    (confirmed: seq<F>, undone: seq<F>) => Judged(lattice, coefficients, undoes, confirmed, undone)
  }

  /** The candidate that fits its lattice best, or what it comes to undone where that fits better
      still, if there is anything to it. */
  function Judged<F(!new)>(
    lattice: F -> real, coefficients: F -> nat, undoes: bool, confirmed: seq<F>, undone: seq<F>): (found: Option<F>)
  {
    if confirmed == [] || |undone| != |confirmed| then None
    else
      var best := Best(confirmed, lattice, |confirmed|);
      Better(lattice, coefficients, undoes, confirmed[best], undone[best])
  }

  function Better<F(!new)>(lattice: F -> real, coefficients: F -> nat, undoes: bool, confirmed: F, undone: F)
    : (found: Option<F>)
  {
    var steps := if undoes && lattice(undone) > lattice(confirmed) then undone else confirmed;
    if coefficients(steps) > 0 then Some(steps) else None
  }

  /** What is found has something to it, and no candidate fits its lattice better. */
  lemma FoundIsBest<T(!new), F(!new)>(
    grid: Grid<T, F>, stream: seq<Frame>, start: nat, candidates: seq<Candidate>, frames: nat, found: F)
    requires grid.Valid() && forall k | 0 <= k < |candidates| :: candidates[k].residue < grid.residues
    requires frames == grid.FramesIn(if start < |stream| then |stream| - start else 0)
    requires ConfirmAt(grid, stream, 0, start, candidates) == Some(found)
    ensures frames > 0 ==> start + grid.residues + grid.control + grid.Extent(frames) <= |stream|
    ensures grid.coefficients(found) > 0
    ensures forall k | 0 <= k < |candidates| ::
      grid.lattice(MeasuredAt(grid, stream, 0, start, frames, candidates[k], ToConfirm)) <= grid.lattice(found)
    ensures exists k, pass | 0 <= k < |candidates| && (pass == ToConfirm || (pass == ToUndo && grid.undoes)) ::
      found == MeasuredAt(grid, stream, 0, start, frames, candidates[k], pass)
  {
    grid.FramesFit(if start < |stream| then |stream| - start else 0);
    var confirmed := MeasureAt(grid, stream, 0, start, frames, candidates, ToConfirm);
    var undone := MeasureAt(grid, stream, 0, start, frames, candidates, ToUndo);
    JudgedBest(grid, confirmed, undone, found);
    forall k | 0 <= k < |candidates|
      ensures grid.lattice(MeasuredAt(grid, stream, 0, start, frames, candidates[k], ToConfirm)) <= grid.lattice(found)
    {
      assert confirmed[k] == MeasuredAt(grid, stream, 0, start, frames, candidates[k], ToConfirm);
    }
  }

  lemma JudgedBest<T(!new), F(!new)>(grid: Grid<T, F>, confirmed: seq<F>, undone: seq<F>, found: F)
    requires grid.Valid() && |confirmed| == |undone| && grid.judge(confirmed, undone) == Some(found)
    ensures grid.coefficients(found) > 0
    ensures exists k | 0 <= k < |confirmed| :: found == confirmed[k] || (grid.undoes && found == undone[k])
    ensures forall k | 0 <= k < |confirmed| :: grid.lattice(confirmed[k]) <= grid.lattice(found)
  {
    assert Look(TheJudge, 0);
    assert Judged(grid.lattice, grid.coefficients, grid.undoes, confirmed, undone) == Some(found);
  }

  /** The candidates measured, the best of them measured again undone, and the better of both
      kept. */
  method Confirm<T(!new), F(!new)>(
    grid: Grid<T, F>, read: seq<Frame>, from: nat, start: nat, candidates: seq<Candidate>) returns (found: Option<F>)
    requires grid.Valid() && forall k | 0 <= k < |candidates| :: candidates[k].residue < grid.residues
    ensures found == ConfirmAt(grid, read, from, start, candidates)
  {
    var room := if start < |read| then |read| - start else 0;
    grid.FramesFit(room);
    var frames := grid.FramesIn(room);
    var confirmed := MeasureAt(grid, read, from, start, frames, candidates, ToConfirm);
    ghost var undone := MeasureAt(grid, read, from, start, frames, candidates, ToUndo);
    JudgedSo(grid, confirmed, undone);
    if candidates == [] {
      return None;
    }
    var best := BestOf(confirmed, grid.lattice);
    var steps := confirmed[best];
    if grid.undoes {
      var again := MeasureAt(grid, read, from, start, frames, [candidates[best]], ToUndo);
      assert again[0] == undone[best];
      if grid.lattice(again[0]) > grid.lattice(steps) {
        steps := again[0];
      }
    }
    found := if grid.coefficients(steps) > 0 then Some(steps) else None;
  }

  lemma JudgedSo<T(!new), F(!new)>(grid: Grid<T, F>, confirmed: seq<F>, undone: seq<F>)
    requires grid.Valid() && |confirmed| == |undone|
    ensures grid.judge(confirmed, undone)
      == if confirmed == [] then None
         else
           var best := Best(confirmed, grid.lattice, |confirmed|);
           Better(grid.lattice, grid.coefficients, grid.undoes, confirmed[best], undone[best])
  {
    assert Look(TheJudge, 0);
  }

  method BestOf<F(!new)>(measured: seq<F>, figure: F -> real) returns (best: nat)
    requires measured != []
    ensures best == Best(measured, figure, |measured|)
  {
    best := 0;
    for k := 1 to |measured|
      invariant best < k && best == Best(measured, figure, k)
    {
      if figure(measured[k]) >= figure(measured[best]) {
        best := k;
      }
    }
  }

  function Summed<T(!new), F(!new)>(grid: Grid<T, F>, tallies: seq<T>, more: seq<T>): (summed: seq<T>)
    requires |tallies| == |more|
    ensures |summed| == |tallies|
  {
    seq(|tallies|, k requires 0 <= k < |tallies| => grid.add(tallies[k], more[k]))
  }

  function RoundedUp(n: nat, each: nat): (rounded: nat)
    requires each > 0
    ensures rounded >= n
  {
    var over := n % each;
    if over == 0 then n else n + (each - over)
  }

  /** What a search makes of the stage: the next search, or enough of them to choose from, or
      enough tried in vain. */
  function Searched<T(!new), F(!new)>(grid: Grid<T, F>, stage: Stage<T, F>, found: seq<T>): (after: Stage<T, F>)
    requires grid.Valid() && stage.Searching? && |found| == |stage.tallies|
  {
    var taken := if grid.busy(found) then stage.taken + 1 else stage.taken;
    var tallies := if grid.busy(found) then Summed(grid, stage.tallies, found) else stage.tallies;
    if taken >= grid.searches || stage.tried + 1 >= TRIED_FOR_EACH_SEARCH_AT_MOST * grid.searches then
      if taken > 0 then Confirming(RoundedUp(stage.next + grid.SearchedThrough(), grid.hop), grid.choose(tallies))
      else Done(None)
    else Searching(stage.next + grid.every, taken, stage.tried + 1, tallies)
  }

  ghost predicate Sound<T(!new), F(!new)>(grid: Grid<T, F>, stage: Stage<T, F>) {
    && (stage.Searching? ==>
          && |stage.tallies| == grid.shapes * grid.residues
          && stage.taken <= stage.tried
          && (stage.tried > 0 ==> stage.tried < TRIED_FOR_EACH_SEARCH_AT_MOST * grid.searches))
    && (stage.Confirming? ==> forall k | 0 <= k < |stage.candidates| :: stage.candidates[k].residue < grid.residues)
  }

  predicate CanGo<T(!new), F(!new)>(grid: Grid<T, F>, reached: nat, stage: Stage<T, F>) {
    match stage
    case Searching(next, _, _, _) => reached >= next + grid.SearchedThrough()
    case Confirming(from, _) => reached >= from + grid.ConfirmedThrough()
    case Done(_) => false
  }

  function StepOf<T(!new), F(!new)>(grid: Grid<T, F>, stream: seq<Frame>, stage: Stage<T, F>): (after: Stage<T, F>)
    requires grid.Valid() && Sound(grid, stage) && CanGo(grid, |stream|, stage)
    ensures Sound(grid, after) && Left(|stream|, after) < Left(|stream|, stage)
  {
    match stage
    case Searching(next, _, _, _) => Searched(grid, stage, SearchAt(grid, stream, 0, next))
    case Confirming(from, candidates) => Done(ConfirmAt(grid, stream, 0, from, candidates))
  }

  /** How much there is left to do at most. */
  function Left<T, F>(reached: nat, stage: Stage<T, F>): (left: nat) {
    match stage
    case Searching(next, _, _, _) => if next <= reached then 2 + reached - next else 2
    case Confirming(_, _) => 1
    case Done(_) => 0
  }

  /** What a stage comes to once nothing more can be done with what there is of the stream. */
  function Settled<T(!new), F(!new)>(grid: Grid<T, F>, stream: seq<Frame>, stage: Stage<T, F>): (settled: Stage<T, F>)
    requires grid.Valid() && Sound(grid, stage)
    ensures Sound(grid, settled) && !CanGo(grid, |stream|, settled)
    decreases Left(|stream|, stage)
  {
    if CanGo(grid, |stream|, stage) then Settled(grid, stream, StepOf(grid, stream, stage)) else stage
  }

  // ---------------------------------------------------------------- what is held is enough

  /** A search of what is held is one of the stream. */
  lemma SearchOfHeld<T(!new), F(!new)>(grid: Grid<T, F>, stream: seq<Frame>, held: seq<Frame>, from: nat, start: nat)
    requires grid.Valid() && from + |held| <= |stream| && held == stream[from..from + |held|]
    requires start + grid.SearchedThrough() <= |held|
    ensures SearchAt(grid, held, from, start) == SearchAt(grid, stream, 0, from + start)
  {
    forall k: nat
      ensures TallyAt(grid, held, from, start, k) == TallyAt(grid, stream, 0, from + start, k)
    {
      TallyOfHeld(grid, stream, held, from, start, k);
    }
  }

  lemma TallyOfHeld<T(!new), F(!new)>(
    grid: Grid<T, F>, stream: seq<Frame>, held: seq<Frame>, from: nat, start: nat, k: nat)
    requires grid.Valid() && from + |held| <= |stream| && held == stream[from..from + |held|]
    requires start + grid.SearchedThrough() <= |held|
    ensures TallyAt(grid, held, from, start, k) == TallyAt(grid, stream, 0, from + start, k)
  {
    var at := start + k % grid.residues;
    ExtentFits(grid, |held|, at, grid.framesASearch);
    RunOfHeld(grid, grid.nothing, stream, held, from, at, grid.framesASearch, k / grid.residues, ToSearch);
  }

  lemma MeasureOfHeld<T(!new), F(!new)>(
    grid: Grid<T, F>, stream: seq<Frame>, held: seq<Frame>, from: nat, start: nat, frames: nat,
    candidates: seq<Candidate>, pass: Pass)
    requires grid.Valid() && from + |held| <= |stream| && held == stream[from..from + |held|]
    requires frames > 0 ==> start + grid.residues + grid.control + grid.Extent(frames) <= |held|
    requires forall k | 0 <= k < |candidates| :: candidates[k].residue < grid.residues
    ensures MeasureAt(grid, held, from, start, frames, candidates, pass)
      == MeasureAt(grid, stream, 0, from + start, frames, candidates, pass)
  {
    forall k | 0 <= k < |candidates|
      ensures MeasuredAt(grid, held, from, start, frames, candidates[k], pass)
        == MeasuredAt(grid, stream, 0, from + start, frames, candidates[k], pass)
    {
      MeasuredOfHeld(grid, stream, held, from, start, frames, candidates[k], pass);
    }
  }

  lemma MeasuredOfHeld<T(!new), F(!new)>(
    grid: Grid<T, F>, stream: seq<Frame>, held: seq<Frame>, from: nat, start: nat, frames: nat, candidate: Candidate,
    pass: Pass)
    requires grid.Valid() && from + |held| <= |stream| && held == stream[from..from + |held|]
    requires frames > 0 ==> start + grid.residues + grid.control + grid.Extent(frames) <= |held|
    requires candidate.residue < grid.residues
    ensures MeasuredAt(grid, held, from, start, frames, candidate, pass)
      == MeasuredAt(grid, stream, 0, from + start, frames, candidate, pass)
  {
    var at := start + candidate.residue;
    ExtentFits(grid, |held|, at, frames);
    ExtentFits(grid, |held|, at + grid.control, frames);
    RunOfHeld(grid, grid.nothing, stream, held, from, at, frames, candidate.shape, pass);
    RunOfHeld(grid, grid.nothing, stream, held, from, at + grid.control, frames, candidate.shape, pass);
  }

  /** What is measured of what is held, both times, is measured of the stream. */
  lemma BothOfHeld<T(!new), F(!new)>(
    grid: Grid<T, F>, stream: seq<Frame>, held: seq<Frame>, from: nat, start: nat, frames: nat,
    candidates: seq<Candidate>)
    requires grid.Valid() && from + |held| <= |stream| && held == stream[from..from + |held|]
    requires frames > 0 ==> start + grid.residues + grid.control + grid.Extent(frames) <= |held|
    requires forall k | 0 <= k < |candidates| :: candidates[k].residue < grid.residues
    ensures MeasureAt(grid, held, from, start, frames, candidates, ToConfirm)
      == MeasureAt(grid, stream, 0, from + start, frames, candidates, ToConfirm)
    ensures MeasureAt(grid, held, from, start, frames, candidates, ToUndo)
      == MeasureAt(grid, stream, 0, from + start, frames, candidates, ToUndo)
  {
    MeasureOfHeld(grid, stream, held, from, start, frames, candidates, ToConfirm);
    MeasureOfHeld(grid, stream, held, from, start, frames, candidates, ToUndo);
  }

  /** What is confirmed of what is held to the stream's end is confirmed of the stream. */
  lemma ConfirmOfHeld<T(!new), F(!new)>(
    grid: Grid<T, F>, stream: seq<Frame>, held: seq<Frame>, from: nat, start: nat, candidates: seq<Candidate>)
    requires grid.Valid() && forall k | 0 <= k < |candidates| :: candidates[k].residue < grid.residues
    requires from + |held| == |stream| && held == stream[from..]
    ensures ConfirmAt(grid, held, from, start, candidates) == ConfirmAt(grid, stream, 0, from + start, candidates)
  {
    var room := if start < |held| then |held| - start else 0;
    grid.FramesFit(room);
    BothOfHeld(grid, stream, held, from, start, grid.FramesIn(room), candidates);
  }

  /** What has been confirmed over all the frames it asks for stays so, whatever follows. */
  lemma ConfirmStays<T(!new), F(!new)>(
    grid: Grid<T, F>, stream: seq<Frame>, more: seq<Frame>, from: nat, candidates: seq<Candidate>)
    requires grid.Valid() && forall k | 0 <= k < |candidates| :: candidates[k].residue < grid.residues
    requires |stream| >= from + grid.ConfirmedThrough()
    ensures ConfirmAt(grid, stream, 0, from, candidates) == ConfirmAt(grid, stream + more, 0, from, candidates)
  {
    grid.FramesFit(|stream| - from);
    grid.FramesFit(|stream + more| - from);
    assert (stream + more)[0..0 + |stream|] == stream;
    BothOfHeld(grid, stream + more, stream, 0, from, grid.confirmedFrames, candidates);
  }

  lemma StepStays<T(!new), F(!new)>(grid: Grid<T, F>, stream: seq<Frame>, more: seq<Frame>, stage: Stage<T, F>)
    requires grid.Valid() && Sound(grid, stage) && CanGo(grid, |stream|, stage)
    ensures CanGo(grid, |stream + more|, stage) && StepOf(grid, stream + more, stage) == StepOf(grid, stream, stage)
  {
    match stage
    case Searching(next, _, _, _) =>
      assert (stream + more)[0..0 + |stream|] == stream;
      SearchOfHeld(grid, stream + more, stream, 0, next);
    case Confirming(from, candidates) =>
      ConfirmStays(grid, stream, more, from, candidates);
  }

  /** Settling for what there is first, and then for more, is settling for it all at once. */
  lemma {:induction false} SettledOn<T(!new), F(!new)>(
    grid: Grid<T, F>, stream: seq<Frame>, more: seq<Frame>, stage: Stage<T, F>)
    requires grid.Valid() && Sound(grid, stage)
    ensures Settled(grid, stream + more, Settled(grid, stream, stage)) == Settled(grid, stream + more, stage)
    decreases Left(|stream|, stage)
  {
    if CanGo(grid, |stream|, stage) {
      StepStays(grid, stream, more, stage);
      SettledOn(grid, stream, more, StepOf(grid, stream, stage));
    }
  }

  /** A stage that the stream comes to as it comes to from the start still does, whatever
      follows. */
  lemma SettledAlike<T(!new), F(!new)>(
    grid: Grid<T, F>, stream: seq<Frame>, more: seq<Frame>, stage: Stage<T, F>)
    requires grid.Valid() && Sound(grid, stage)
    requires Settled(grid, stream, stage) == Settled(grid, stream, Start(grid))
    ensures Settled(grid, stream + more, stage) == Settled(grid, stream + more, Start(grid))
    ensures stage.Done? ==> Settled(grid, stream + more, stage) == stage
  {
    SettledOn(grid, stream, more, stage);
    SettledOn(grid, stream, more, Start(grid));
  }

  lemma HeldOn(stream: seq<Frame>, from: nat, more: seq<Frame>)
    requires from <= |stream|
    ensures (stream + more)[from..] == stream[from..] + more
  {
  }

  function Start<T(!new), F(!new)>(grid: Grid<T, F>): (start: Stage<T, F>)
    requires grid.Valid()
    ensures Sound(grid, start)
  {
    Searching(grid.every, 0, 0, seq(grid.shapes * grid.residues, _ => grid.nothing))
  }

  /** What a whole stream comes to: what was found, or what can still be confirmed of it. */
  function Outcome<T(!new), F(!new)>(grid: Grid<T, F>, stream: seq<Frame>): (found: Option<F>)
    requires grid.Valid()
  {
    match Settled(grid, stream, Start(grid))
    case Searching(_, _, _, _) => None
    case Confirming(from, candidates) => ConfirmAt(grid, stream, 0, from, candidates)
    case Done(found) => found
  }

  /** Where the rest of the stream is read from. */
  function ReadFrom<T, F>(stage: Stage<T, F>): (position: nat)
    requires !stage.Done?
  {
    if stage.Searching? then stage.next else stage.from
  }

  lemma StepReadsOn<T(!new), F(!new)>(grid: Grid<T, F>, stream: seq<Frame>, stage: Stage<T, F>)
    requires grid.Valid() && Sound(grid, stage) && CanGo(grid, |stream|, stage)
    ensures var after := StepOf(grid, stream, stage); !after.Done? ==> ReadFrom(after) >= ReadFrom(stage)
  {
  }

  class Stepping<T(!new), F(!new)> {
    const grid: Grid<T, F>
    var held: seq<Frame>
    var heldFrom: nat
    var reached: nat
    var stage: Stage<T, F>
    ghost var stream: seq<Frame>

    /** What is held is the end of the stream, from no later than is still to be read; and the
        stage is the one some of the stream comes to, as far as the whole of it is concerned. */
    ghost predicate Valid()
      reads this
    {
      && grid.Valid() && Sound(grid, stage)
      && Settled(grid, stream, stage) == Settled(grid, stream, Start(grid))
      && (!stage.Done? ==>
            && reached == |stream| == heldFrom + |held|
            && held == stream[heldFrom..] && heldFrom <= ReadFrom(stage))
    }

    constructor (grid: Grid<T, F>)
      requires grid.Valid()
      ensures Valid() && stream == [] && this.grid == grid && !CanGo(grid, reached, stage)
    {
      this.grid := grid;
      held, heldFrom, reached, stage := [], 0, 0, Start(grid);
      stream := [];
    }

    /** However the stream is cut, what is held and what it has come to depend on all of it. */
    method Note(piece: seq<Frame>)
      requires Valid()
      modifies this
      ensures Valid() && stream == old(stream) + piece
      ensures stage == Settled(grid, stream, Start(grid))
      ensures stage.Done? ==> held == [] || old(stage).Done?
    {
      SettledAlike(grid, stream, piece, stage);
      if stage.Done? {
        stream := stream + piece;
        return;
      }
      HeldOn(stream, heldFrom, piece);
      held := held + piece;
      reached := reached + |piece|;
      stream := stream + piece;
      Advance();
    }

    method Advance()
      requires Valid() && !stage.Done?
      modifies this
      ensures Valid() && stream == old(stream)
      ensures stage == Settled(grid, stream, Start(grid))
      ensures stage.Done? ==> held == []
    {
      while true
        invariant Valid() && stream == old(stream)
        decreases Left(|stream|, stage)
      {
        if stage.Done? {
          held := [];
          return;
        }
        ForgetBefore(ReadFrom(stage));
        if !CanGo(grid, reached, stage) {
          return;
        }
        Go();
      }
    }

    /** What is before a position is let go, as far as it is held. */
    method ForgetBefore(position: nat)
      requires Valid() && !stage.Done? && position == ReadFrom(stage)
      modifies this`held, this`heldFrom
      ensures Valid() && heldFrom == if position <= reached then position else reached
    {
      var gone := position - heldFrom;
      if gone > |held| {
        gone := |held|;
      }
      assert stream[heldFrom..][gone..] == stream[heldFrom + gone..];
      held := held[gone..];
      heldFrom := heldFrom + gone;
    }

    /** One search or confirmation of what is held, from the first of it. */
    method Go()
      requires Valid() && CanGo(grid, reached, stage) && !stage.Done? && heldFrom == ReadFrom(stage)
      modifies this`stage
      ensures Valid() && stage == StepOf(grid, stream, old(stage))
    {
      StepReadsOn(grid, stream, stage);
      if stage.Searching? {
        SearchOfHeld(grid, stream, held, heldFrom, 0);
        stage := Searched(grid, stage, SearchAt(grid, held, heldFrom, 0));
      } else {
        ConfirmOfHeld(grid, stream, held, heldFrom, 0, stage.candidates);
        var found := Confirm(grid, held, heldFrom, 0, stage.candidates);
        stage := Done(found);
      }
    }

    method Finished() returns (found: Option<F>)
      requires Valid() && stage == Settled(grid, stream, Start(grid))
      modifies this`stage
      ensures found == Outcome(grid, stream)
    {
      if stage.Confirming? {
        ConfirmOfHeld(grid, stream, held, heldFrom, stage.from - heldFrom, stage.candidates);
        var confirmed := Confirm(grid, held, heldFrom, stage.from - heldFrom, stage.candidates);
        stage := Done(confirmed);
      }
      found := if stage.Done? then stage.found else None;
    }
  }

  function Joined(pieces: seq<seq<Frame>>): (joined: seq<Frame>)
    decreases |pieces|
  {
    if pieces == [] then [] else Joined(pieces[..|pieces| - 1]) + pieces[|pieces| - 1]
  }

  /** However a stream is cut, the same is found. */
  method FoundInPieces<T(!new), F(!new)>(grid: Grid<T, F>, pieces: seq<seq<Frame>>) returns (found: Option<F>)
    requires grid.Valid()
    ensures found == Outcome(grid, Joined(pieces))
  {
    var stepping := new Stepping(grid);
    for k := 0 to |pieces|
      invariant stepping.Valid() && fresh(stepping) && stepping.grid == grid
      invariant stepping.stream == Joined(pieces[..k])
      invariant stepping.stage == Settled(grid, stepping.stream, Start(grid))
    {
      assert pieces[..k + 1][..k] == pieces[..k];
      stepping.Note(pieces[k]);
    }
    assert pieces[..|pieces|] == pieces;
    found := stepping.Finished();
  }

  /** Searches are tried where they fall, one after another, and never more than so many for each
      one wanted; where one is left to try fewer have been taken than are wanted. */
  ghost predicate Trying<T(!new), F(!new)>(grid: Grid<T, F>, stage: Stage<T, F>) {
    stage.Searching? ==>
      && stage.next == (stage.tried + 1) * grid.every && stage.taken <= stage.tried
      && (stage.tried > 0 ==>
            stage.taken < grid.searches && stage.tried + 1 <= TRIED_FOR_EACH_SEARCH_AT_MOST * grid.searches)
  }

  lemma {:induction false} NoMoreTried<T(!new), F(!new)>(grid: Grid<T, F>, stream: seq<Frame>, stage: Stage<T, F>)
    requires grid.Valid() && Sound(grid, stage) && Trying(grid, stage)
    ensures Trying(grid, Settled(grid, stream, stage))
    decreases Left(|stream|, stage)
  {
    if CanGo(grid, |stream|, stage) {
      if stage.Searching? {
        Distributes(stage.tried + 1, 1, grid.every);
      }
      NoMoreTried(grid, stream, StepOf(grid, stream, stage));
    }
  }

  /** However much of a stream has come, searches have been tried where they fall and no more of
      them than may be. */
  lemma AlwaysTrying<T(!new), F(!new)>(grid: Grid<T, F>, stream: seq<Frame>)
    requires grid.Valid()
    ensures Trying(grid, Settled(grid, stream, Start(grid)))
  {
    NoMoreTried(grid, stream, Start(grid));
  }
}
