/** One channel heard window by window, each frame as high as the whole of it and as each group
    of it is there, however the stream was cut. */
module Coinciding {
  import opened Wrappers
  import opened Vectors
  import opened Weighings
  import opened Places
  import opened Folding
  import Banks

  // ---------------------------------------------------------------- the loudest within reach

  /** Every point but the first and the last as loud as the loudest of itself and its two
      neighbours. */
  function Passed(sizes: seq<real>): (passed: seq<real>)
    ensures |passed| == |sizes|
    ensures forall i {:trigger passed[i]} | 0 <= i < |sizes| ::
      passed[i] == if 0 < i < |sizes| - 1 then Max(Max(sizes[i - 1], sizes[i]), sizes[i + 1]) else sizes[i]
  {
    seq(|sizes|, i requires 0 <= i < |sizes| =>
      if 0 < i < |sizes| - 1 then Max(Max(sizes[i - 1], sizes[i]), sizes[i + 1]) else sizes[i])
  }

  function Passes(sizes: seq<real>, many: nat): (passed: seq<real>)
    ensures |passed| == |sizes|
  {
    if many == 0 then sizes else Passed(Passes(sizes, many - 1))
  }

  /** The loudest of the points within reach of one, as far as there are points. */
  ghost predicate LoudestWithin(sizes: seq<real>, at: nat, reach: nat, loudest: real) {
    && (forall i | 0 <= i < |sizes| && at - reach <= i <= at + reach :: sizes[i] <= loudest)
    && exists i | 0 <= i < |sizes| && at - reach <= i <= at + reach :: sizes[i] == loudest
  }

  /** A point as loud as what it reaches, or at an edge and as it was. */
  ghost predicate Heard(sizes: seq<real>, passed: seq<real>, reach: nat, at: nat)
    requires at < |sizes| == |passed|
  {
    if 0 < at < |sizes| - 1 then LoudestWithin(sizes, at, reach, passed[at]) else passed[at] == sizes[at]
  }

  /** So many passes reach so far each way from every point but the first and the last, and
      leave those two as they were. */
  lemma {:induction false} PassesReach(sizes: seq<real>, many: nat, at: nat)
    requires at < |sizes|
    ensures Heard(sizes, Passes(sizes, many), many, at)
    decreases many
  {
    if many > 0 {
      var passed := Passes(sizes, many - 1);
      PassesReach(sizes, many - 1, at);
      if 0 < at < |sizes| - 1 {
        PassesReach(sizes, many - 1, at - 1);
        PassesReach(sizes, many - 1, at + 1);
        ReachesOneFurther(sizes, passed, many - 1, at);
      }
      assert Passes(sizes, many) == Passed(passed);
    }
  }

  lemma ReachesOneFurther(sizes: seq<real>, passed: seq<real>, reach: nat, at: nat)
    requires 0 < at < |sizes| - 1 && |passed| == |sizes|
    requires Heard(sizes, passed, reach, at - 1) && Heard(sizes, passed, reach, at)
    requires Heard(sizes, passed, reach, at + 1)
    ensures LoudestWithin(sizes, at, reach + 1, Passed(passed)[at])
  {
    var loudest := Passed(passed)[at];
    assert loudest == Max(Max(passed[at - 1], passed[at]), passed[at + 1]);
    ThreeReach(sizes, at, reach, passed[at - 1], passed[at], passed[at + 1], loudest);
  }

  lemma ThreeReach(sizes: seq<real>, at: nat, reach: nat, before: real, here: real, after: real, loudest: real)
    requires 0 < at < |sizes| - 1 && loudest == Max(Max(before, here), after)
    requires if 0 < at - 1 then LoudestWithin(sizes, at - 1, reach, before) else before == sizes[at - 1]
    requires LoudestWithin(sizes, at, reach, here)
    requires if at + 1 < |sizes| - 1 then LoudestWithin(sizes, at + 1, reach, after) else after == sizes[at + 1]
    ensures LoudestWithin(sizes, at, reach + 1, loudest)
  {
    forall i | 0 <= i < |sizes| && at - (reach + 1) <= i <= at + (reach + 1)
      ensures sizes[i] <= loudest
    {
      if i == at - (reach + 1) {
        assert sizes[i] <= before;
      } else if i == at + (reach + 1) {
        assert sizes[i] <= after;
      } else {
        assert sizes[i] <= here;
      }
    }
    if loudest == here {
      var i :| 0 <= i < |sizes| && at - reach <= i <= at + reach && sizes[i] == here;
      assert sizes[i] == loudest;
    } else if loudest == before {
      var i := SomeWithin(sizes, at - 1, reach, before);
      assert sizes[i] == loudest;
    } else {
      var i := SomeWithin(sizes, at + 1, reach, after);
      assert sizes[i] == loudest;
    }
  }

  lemma SomeWithin(sizes: seq<real>, at: nat, reach: nat, loudest: real) returns (i: nat)
    requires at < |sizes|
    requires if 0 < at < |sizes| - 1 then LoudestWithin(sizes, at, reach, loudest) else loudest == sizes[at]
    ensures i < |sizes| && at - reach <= i <= at + reach && sizes[i] == loudest
  {
    i := at;
    if 0 < at < |sizes| - 1 {
      i :| 0 <= i < |sizes| && at - reach <= i <= at + reach && sizes[i] == loudest;
    }
  }

  method Widen(sizes: seq<real>, many: nat) returns (widened: seq<real>)
    ensures widened == Passes(sizes, many)
  {
    widened := sizes;
    for pass := 0 to many
      invariant widened == Passes(sizes, pass)
    {
      widened := Passed(widened);
    }
  }

  /** How a group's heights are read: its sizes point by point, so many passes over them, so many
      frames to a point, and how much sharper they may be than read. */
  datatype Group = Group(sizes: seq<real> -> seq<real>, passes: nat, framesAPoint: nat, sharpened: real) {
    ghost predicate Reads(size: nat) {
      && framesAPoint > 0
      && forall window: seq<real> {:trigger sizes(window)} | |window| == size ::
           |sizes(window)| > 0 && size <= |sizes(window)| * framesAPoint
    }
  }

  /** How high a group is at a point: as it and the next are, the last's next being the first. */
  function HeightAt(points: seq<real>, sharpened: real, point: nat): (height: real) {
    if point < |points| then Max(points[point], points[if point + 1 < |points| then point + 1 else 0]) * sharpened
    else 0.0
  }

  /** How high it is at a frame. */
  function HeightOf(points: seq<real>, framesAPoint: nat, sharpened: real, frame: nat): (height: real)
    requires framesAPoint > 0
  {
    HeightAt(points, sharpened, frame / framesAPoint)
  }

  /** How high a group is over so many frames of a window. */
  function HeightsOf(group: Group, window: seq<real>, from: nat, frames: nat): (heights: seq<real>)
    requires group.framesAPoint > 0
    ensures |heights| == frames
  {
    var points := Passes(group.sizes(window), group.passes);
    seq(frames, k requires 0 <= k < frames => HeightOf(points, group.framesAPoint, group.sharpened, from + k))
  }

  method HearGroup(group: Group, window: seq<real>, from: nat, frames: nat) returns (held: seq<real>)
    requires group.Reads(|window|) && from + frames <= |window|
    ensures held == HeightsOf(group, window, from, frames)
  {
    var points := Widen(group.sizes(window), group.passes);
    held := Fill(points, group.framesAPoint, group.sharpened, from, frames);
    assert held == HeightsOf(group, window, from, frames);
  }

  ghost predicate Filled(held: seq<real>, points: seq<real>, framesAPoint: nat, sharpened: real, from: nat)
    requires framesAPoint > 0
  {
    forall k {:trigger held[k]} | 0 <= k < |held| :: held[k] == HeightOf(points, framesAPoint, sharpened, from + k)
  }

  /** Every frame of a point as high as the point is, point after point. */
  method Fill(points: seq<real>, framesAPoint: nat, sharpened: real, from: nat, frames: nat) returns (held: seq<real>)
    requires framesAPoint > 0 && from + frames <= |points| * framesAPoint
    ensures |held| == frames && Filled(held, points, framesAPoint, sharpened, from)
  {
    held := [];
    ghost var many := |points|;
    while |held| < frames
      invariant |held| <= frames
      invariant Filled(held, points, framesAPoint, sharpened, from)
    {
      var point, past := PastPoint(from + |held|, framesAPoint, many);
      var upto := if past - from < frames then past - from else frames;
      var more := seq(upto - |held|, _ => HeightAt(points, sharpened, point));
      FilledOn(held, more, points, framesAPoint, sharpened, from, point);
      held := held + more;
    }
  }

  method PastPoint(frame: nat, each: nat, ghost points: nat) returns (point: nat, past: nat)
    requires each > 0 && frame < points * each
    ensures FallsIn(frame, point, each) && point < points && frame < past == point * each + each
  {
    point := frame / each;
    past := (point + 1) * each;
    PointHolds(frame, each, points);
  }

  lemma FilledOn(
    held: seq<real>, more: seq<real>, points: seq<real>, framesAPoint: nat, sharpened: real, from: nat, point: nat)
    requires framesAPoint > 0 && Filled(held, points, framesAPoint, sharpened, from)
    requires forall k | 0 <= k < |more| :: more[k] == HeightAt(points, sharpened, point)
    requires |more| > 0 ==> FallsIn(from + |held|, point, framesAPoint)
    requires |more| > 0 ==> FallsIn(from + |held| + |more| - 1, point, framesAPoint)
    ensures Filled(held + more, points, framesAPoint, sharpened, from)
  {
    var both := held + more;
    forall k {:trigger both[k]} | 0 <= k < |both|
      ensures both[k] == HeightOf(points, framesAPoint, sharpened, from + k)
    {
      if k >= |held| {
        SamePoint(point, from + k, framesAPoint);
      } else {
        assert both[k] == held[k];
      }
    }
  }

  lemma PointHolds(frame: nat, each: nat, points: nat)
    requires each > 0 && frame < points * each
    ensures frame / each < points && FallsIn(frame, frame / each, each)
    ensures (frame / each + 1) * each == frame / each * each + each
  {
    Divided(frame, each);
    Distributes(frame / each, 1, each);
    Steadily(points, frame / each, each);
  }

  lemma SamePoint(point: nat, frame: nat, each: nat)
    requires each > 0 && FallsIn(frame, point, each)
    ensures frame / each == point
  {
    OnePlace(frame, point, each);
  }

  // ---------------------------------------------------------------- windows of a stream

  /** How a window of samples is read: how high the whole is at any place in it, and the groups.
      Each window reads so many frames, with so many samples on either side of them. */
  datatype Setup = Setup(pad: nat, hop: nat, whole: (seq<real>, nat) -> real, low: Group, middle: Group, high: Group) {
    function Size(): nat {
      pad + hop + pad
    }

    ghost predicate Valid() {
      && 0 < pad && 0 < hop && low.framesAPoint > 0 && middle.framesAPoint > 0 && high.framesAPoint > 0
      && forall fold: nat {:trigger Look(TheGroups, fold)} | Look(TheGroups, fold) ::
           low.Reads(Size()) && middle.Reads(Size()) && high.Reads(Size())
    }
  }

  /** Windows of a stream, so many frames apart and with so many samples on either side of those
      that each reads, and how high each window reads its frames to be, however that is done. */
  datatype Windows = Windows(pad: nat, hop: nat, read: seq<real> -> seq<Four>) {
    function Size(): nat {
      pad + hop + pad
    }

    ghost predicate Valid() {
      && 0 < pad && 0 < hop
      && forall window: seq<real> {:trigger read(window)} | |window| == Size() :: |read(window)| == hop
    }
  }

  /** How high each frame of a window is: the whole as it is there, and each group. */
  function HeardIn(setup: Setup, window: seq<real>): (fours: seq<Four>)
    requires setup.Valid()
    ensures |fours| == setup.hop
  {
    var low := HeightsOf(setup.low, window, setup.pad, setup.hop);
    var middle := HeightsOf(setup.middle, window, setup.pad, setup.hop);
    var high := HeightsOf(setup.high, window, setup.pad, setup.hop);
    seq(setup.hop, k requires 0 <= k < setup.hop =>
      Four(setup.whole(window, setup.pad + k), low[k], middle[k], high[k]))
  }

  function WindowsOf(setup: Setup): (windows: Windows)
    requires setup.Valid()
    ensures windows.Valid() && windows.pad == setup.pad && windows.hop == setup.hop
  {
    Windows(setup.pad, setup.hop, (window: seq<real>) => HeardIn(setup, window))
  }

  /** How high the first frames of a window are. */
  function FoursOf(windows: Windows, window: seq<real>, frames: nat): (fours: seq<Four>)
    requires windows.Valid() && |window| == windows.Size() && frames <= windows.hop
    ensures |fours| == frames
  {
    windows.read(window)[..frames]
  }

  /** The stream with its start mirrored before it. */
  function Extended(pad: nat, stream: seq<real>): (extended: seq<real>)
    ensures |extended| == pad + |stream|
    ensures forall k {:trigger extended[k]} | 0 <= k < |extended| ::
      extended[k] == if k >= pad then stream[k - pad] else if pad - k < |stream| then stream[pad - k] else 0.0
  {
    seq(pad, k requires 0 <= k < pad => if pad - k < |stream| then stream[pad - k] else 0.0) + stream
  }

  /** One sample of the window that reads from a frame: past the end of the stream the window is
      mirrored about it, as far as the window goes back. */
  function SampleAt(pad: nat, stream: seq<real>, from: nat, at: nat): (sample: real)
    requires from <= |stream|
  {
    var ending := pad + |stream| - from;
    var mirrored := 2 * ending - at - 2;
    if at < ending then Extended(pad, stream)[from + at]
    else if mirrored >= 0 then Extended(pad, stream)[from + mirrored]
    else 0.0
  }

  function Window(windows: Windows, stream: seq<real>, from: nat): (window: seq<real>)
    requires from <= |stream|
    ensures |window| == windows.Size()
    ensures forall at {:trigger window[at]} | 0 <= at < windows.Size() ::
      window[at] == SampleAt(windows.pad, stream, from, at)
  {
    seq(windows.Size(), at requires 0 <= at < windows.Size() => SampleAt(windows.pad, stream, from, at))
  }

  function Fewer(one: nat, other: nat): (fewer: nat) {
    if one < other then one else other
  }

  /** How high the frames are that each window reads, by where it starts. */
  type Reader = nat -> seq<Four>

  ghost predicate ReadsHops(read: Reader, hop: nat, frames: nat) {
    hop > 0 && forall start: nat {:trigger read(start)} | start < frames :: |read(start)| == Fewer(hop, frames - start)
  }

  /** Window after window, a hop apart. */
  function ReadFrom(read: Reader, hop: nat, frames: nat, from: nat): (fours: seq<Four>)
    requires hop > 0
    decreases if from < frames then frames - from else 0
  {
    if from >= frames then [] else read(from) + ReadFrom(read, hop, frames, from + hop)
  }

  function ReaderOf(windows: Windows, stream: seq<real>): (read: Reader)
    requires windows.Valid()
    ensures ReadsHops(read, windows.hop, |stream|)
  {
    (start: nat) =>
      if start < |stream| then FoursOf(windows, Window(windows, stream, start), Fewer(windows.hop, |stream| - start))
      else []
  }

  /** How high each frame of a stream is. */
  function Whole(windows: Windows, stream: seq<real>): (fours: seq<Four>)
    requires windows.Valid()
  {
    ReadFrom(ReaderOf(windows, stream), windows.hop, |stream|, 0)
  }

  lemma FirstOrLater(read: Reader, hop: nat, frames: nat, from: nat, frame: nat)
    requires ReadsHops(read, hop, frames) && from + frame < frames
    ensures var fours, later := ReadFrom(read, hop, frames, from), ReadFrom(read, hop, frames, from + hop);
      && |fours| == frames - from
      && (frame < hop ==> frame < |read(from)| && fours[frame] == read(from)[frame])
      && (frame >= hop ==> |later| == frames - from - hop && fours[frame] == later[frame - hop])
  {
    AsMany(read, hop, frames, from);
    AsMany(read, hop, frames, from + hop);
  }

  /** Every frame is read once, in the one window it falls in: they start a hop apart, and read a
      hop each. */
  lemma {:induction false} EachFrameOnce(read: Reader, hop: nat, frames: nat, from: nat, frame: nat)
      returns (start: nat)
    requires ReadsHops(read, hop, frames) && from + frame < frames
    ensures |ReadFrom(read, hop, frames, from)| == frames - from
    ensures from <= start <= from + frame < start + hop && (start - from) % hop == 0
    ensures from + frame - start < |read(start)|
    ensures ReadFrom(read, hop, frames, from)[frame] == read(start)[from + frame - start]
    decreases frames - from
  {
    FirstOrLater(read, hop, frames, from, frame);
    if frame < hop {
      start := from;
    } else {
      start := EachFrameOnce(read, hop, frames, from + hop, frame - hop);
      OneHopOn(start - from - hop, hop);
    }
  }

  lemma OneHopOn(before: nat, hop: nat)
    requires hop > 0 && before % hop == 0
    ensures (before + hop) % hop == 0
  {
    Divided(before, hop);
    Distributes(before / hop, 1, hop);
    Quotient(before / hop + 1, 0, hop);
    Divided(before + hop, hop);
  }

  lemma {:induction false} AsMany(read: Reader, hop: nat, frames: nat, from: nat)
    requires ReadsHops(read, hop, frames)
    ensures |ReadFrom(read, hop, frames, from)| == if from < frames then frames - from else 0
    decreases if from < frames then frames - from else 0
  {
    if from < frames {
      AsMany(read, hop, frames, from + hop);
    }
  }

  /** Samples past a window that is already full do not change it. */
  lemma FullStays(windows: Windows, stream: seq<real>, more: seq<real>, from: nat, window: seq<real>)
    requires windows.pad < |stream| && from <= |stream|
    requires from + windows.Size() <= windows.pad + |stream|
    requires window == Extended(windows.pad, stream)[from..from + windows.Size()]
    ensures window == Window(windows, stream + more, from)
  {
    forall at | 0 <= at < windows.Size()
      ensures window[at] == Window(windows, stream + more, from)[at]
    {
      assert window[at] == Extended(windows.pad, stream)[from + at];
      assert Extended(windows.pad, stream + more)[from + at] == Extended(windows.pad, stream)[from + at];
    }
  }

  lemma ExtendedOn(pad: nat, stream: seq<real>, more: seq<real>, from: nat)
    requires pad < |stream| && from <= pad + |stream|
    ensures Extended(pad, stream + more)[from..] == Extended(pad, stream)[from..] + more
  {
  }

  /** The end of one window past its hop is the start of the next. */
  lemma NextWindow(windows: Windows, stream: seq<real>, from: nat)
    requires from + windows.hop < |stream|
    ensures Window(windows, stream, from)[windows.hop..]
      == Window(windows, stream, from + windows.hop)[..2 * windows.pad]
  {
    var one, next := Window(windows, stream, from), Window(windows, stream, from + windows.hop);
    forall at | 0 <= at < 2 * windows.pad
      ensures one[windows.hop + at] == next[at]
    {
    }
  }

  /** The window's end mirrored about where the stream ends, sample after sample. */
  method MirrorAfter(channel: seq<real>, ending: nat, size: nat) returns (mirrored: seq<real>)
    requires ending <= |channel|
    ensures |mirrored| == if |channel| < size then size else |channel|
    ensures forall at | 0 <= at < |channel| :: mirrored[at] == channel[at]
    ensures forall at | |channel| <= at < |mirrored| ::
      mirrored[at] == if 2 * ending - at - 2 >= 0 then channel[2 * ending - at - 2] else 0.0
  {
    mirrored := channel;
    while |mirrored| < size
      invariant |channel| <= |mirrored| && (|mirrored| > |channel| ==> |mirrored| <= size)
      invariant forall at | 0 <= at < |channel| :: mirrored[at] == channel[at]
      invariant forall at | |channel| <= at < |mirrored| ::
        mirrored[at] == if 2 * ending - at - 2 >= 0 then channel[2 * ending - at - 2] else 0.0
    {
      var into := 2 * ending - |mirrored| - 2;
      var sample := if 0 <= into < |mirrored| then mirrored[into] else 0.0;
      mirrored := mirrored + [sample];
    }
  }

  lemma MirroredIsWindow(windows: Windows, stream: seq<real>, from: nat, channel: seq<real>, mirrored: seq<real>)
    requires from <= |stream|
    requires var ending := windows.pad + |stream| - from;
      && ending <= |channel| <= windows.Size() == |mirrored|
      && (forall at | 0 <= at < |channel| :: mirrored[at] == channel[at])
      && forall at | |channel| <= at < |mirrored| ::
           mirrored[at] == if 2 * ending - at - 2 >= 0 then channel[2 * ending - at - 2] else 0.0
    requires channel == Window(windows, stream, from)[..|channel|]
    ensures mirrored == Window(windows, stream, from)
  {
    var window, ending := Window(windows, stream, from), windows.pad + |stream| - from;
    forall at | 0 <= at < windows.Size()
      ensures mirrored[at] == window[at]
    {
      if at >= |channel| && 2 * ending - at - 2 >= 0 {
        assert channel[2 * ending - at - 2] == window[2 * ending - at - 2];
      }
    }
  }

  // ---------------------------------------------------------------- hearing

  const FRAMES_SUMMED_AT_ONCE: nat := 256

  function WholesOf(fours: seq<Four>): (wholes: seq<real>)
    ensures |wholes| == |fours| && forall k | 0 <= k < |fours| :: wholes[k] == fours[k].whole
  {
    seq(|fours|, k requires 0 <= k < |fours| => fours[k].whole)
  }

  /** What was heard of some frames: the table of all weighings, and the loudest the whole was. */
  ghost predicate HoldsAll(table: Table, sampled: real, fours: seq<Four>) {
    forall fold: nat {:trigger Look(TheTable, fold)} | Look(TheTable, fold) ::
      Holds(table, fours) && IsLoudest(0.0, WholesOf(fours), sampled)
  }

  lemma AllHeld(table: Table, sampled: real, fours: seq<Four>)
    requires HoldsAll(table, sampled, fours)
    ensures Holds(table, fours) && IsLoudest(0.0, WholesOf(fours), sampled)
  {
    assert Look(TheTable, 0);
  }

  /** One window read: its heights frame by frame, summed so many frames at once. */
  method ReadWindow(setup: Setup, window: seq<real>, frames: nat, table: Table, sampled: real, ghost fours: seq<Four>)
      returns (heard: Table, loudest: real)
    requires setup.Valid() && |window| == setup.Size() && frames <= setup.hop && HoldsAll(table, sampled, fours)
    ensures HoldsAll(heard, loudest, fours + FoursOf(WindowsOf(setup), window, frames))
  {
    assert Look(TheGroups, 0);
    var low := HearGroup(setup.low, window, setup.pad, setup.hop);
    var middle := HearGroup(setup.middle, window, setup.pad, setup.hop);
    var high := HearGroup(setup.high, window, setup.pad, setup.hop);
    var more := seq(frames, k requires 0 <= k < frames =>
      Four(setup.whole(window, setup.pad + k), low[k], middle[k], high[k]));
    assert more == HeardIn(setup, window)[..frames];
    heard, loudest := HearFours(more, table, sampled, fours);
  }

  method HearFours(more: seq<Four>, table: Table, sampled: real, ghost fours: seq<Four>)
      returns (heard: Table, loudest: real)
    requires HoldsAll(table, sampled, fours)
    ensures HoldsAll(heard, loudest, fours + more)
  {
    heard, loudest := table, sampled;
    var at := 0;
    assert fours + more[..0] == fours;
    while at < |more|
      invariant 0 <= at <= |more| && HoldsAll(heard, loudest, fours + more[..at])
    {
      var past := Fewer(at + FRAMES_SUMMED_AT_ONCE, |more|);
      heard, loudest := HearSome(more[at..past], heard, loudest, fours + more[..at]);
      assert fours + more[..at] + more[at..past] == fours + more[..past];
      at := past;
    }
    assert more[..|more|] == more;
  }

  method HearSome(more: seq<Four>, table: Table, sampled: real, ghost fours: seq<Four>)
      returns (heard: Table, loudest: real)
    requires HoldsAll(table, sampled, fours)
    ensures HoldsAll(heard, loudest, fours + more)
  {
    AllHeld(table, sampled, fours);
    var whole := WholesOf(more);
    loudest := LoudestOf(sampled, whole);
    LoudestOn(0.0, WholesOf(fours), sampled, whole, loudest);
    assert WholesOf(fours + more) == WholesOf(fours) + whole;
    heard := HearInto(table, more, fours);
  }

  /** How high the frames are that are still to be read. */
  function Rest(windows: Windows, stream: seq<real>, from: nat): (fours: seq<Four>)
    requires windows.Valid()
  {
    ReadFrom(ReaderOf(windows, stream), windows.hop, |stream|, from)
  }

  /** Whatever may follow, what was read and what is still to be read is the whole. */
  ghost predicate Course(windows: Windows, stream: seq<real>, settled: nat, fours: seq<Four>)
    requires windows.Valid()
  {
    forall fold: nat {:trigger Look(TheFours, fold)} | Look(TheFours, fold) ::
      forall more: seq<real> {:trigger stream + more} :: Goes(windows, stream + more, settled, fours)
  }

  ghost predicate Goes(windows: Windows, stream: seq<real>, settled: nat, fours: seq<Four>)
    requires windows.Valid()
  {
    Whole(windows, stream) == fours + Rest(windows, stream, settled)
  }

  lemma Starts(windows: Windows)
    requires windows.Valid()
    ensures Course(windows, [], 0, [])
  {
    forall more: seq<real> ensures Goes(windows, [] + more, 0, []) {
      assert [] + Rest(windows, [] + more, 0) == Rest(windows, [] + more, 0);
    }
  }

  lemma GoesOn(windows: Windows, stream: seq<real>, more: seq<real>, settled: nat, fours: seq<Four>)
    requires windows.Valid() && Course(windows, stream, settled, fours)
    ensures Course(windows, stream + more, settled, fours)
  {
    assert Look(TheFours, 0);
    forall yet: seq<real> ensures Goes(windows, stream + more + yet, settled, fours) {
      assert stream + more + yet == stream + (more + yet);
    }
  }

  lemma GoesToEnd(windows: Windows, stream: seq<real>, settled: nat, fours: seq<Four>)
    requires windows.Valid() && Course(windows, stream, settled, fours)
    ensures Goes(windows, stream, settled, fours)
  {
    assert Look(TheFours, 0);
    assert stream + [] == stream;
  }

  /** One window read is one window less to be read. */
  lemma OneWindowLess(windows: Windows, stream: seq<real>, settled: nat, fours: seq<Four>, window: seq<real>)
    requires windows.Valid() && settled < |stream| && window == Window(windows, stream, settled)
    requires Goes(windows, stream, settled, fours)
    ensures Goes(windows, stream, settled + windows.hop,
                 fours + FoursOf(windows, window, Fewer(windows.hop, |stream| - settled)))
  {
    var first := FoursOf(windows, window, Fewer(windows.hop, |stream| - settled));
    assert ReaderOf(windows, stream)(settled) == first;
    assert Rest(windows, stream, settled) == first + Rest(windows, stream, settled + windows.hop);
  }

  lemma FullWindowLess(windows: Windows, stream: seq<real>, settled: nat, fours: seq<Four>, window: seq<real>)
    requires windows.Valid() && windows.pad < |stream| && settled + windows.Size() <= windows.pad + |stream|
    requires window == Extended(windows.pad, stream)[settled..settled + windows.Size()]
    requires Course(windows, stream, settled, fours)
    ensures Course(windows, stream, settled + windows.hop, fours + FoursOf(windows, window, windows.hop))
  {
    assert Look(TheFours, 0);
    forall more: seq<real>
      ensures Goes(windows, stream + more, settled + windows.hop, fours + FoursOf(windows, window, windows.hop))
    {
      FullStays(windows, stream, more, settled, window);
      OneWindowLess(windows, stream + more, settled, fours, window);
    }
  }

  lemma FullSettled(
    windows: Windows, stream: seq<real>, settled: nat, fours: seq<Four>, samples: seq<real>, window: seq<real>)
    requires windows.Valid() && windows.pad < |stream| && settled <= |stream| && Course(windows, stream, settled, fours)
    requires samples == Extended(windows.pad, stream)[settled..] && |samples| >= windows.Size()
    requires window == samples[..windows.Size()]
    ensures Course(windows, stream, settled + windows.hop, fours + FoursOf(windows, window, windows.hop))
    ensures settled + windows.hop <= |stream| && windows.hop <= |samples|
    ensures samples[windows.hop..] == Extended(windows.pad, stream)[settled + windows.hop..]
  {
    var extended := Extended(windows.pad, stream);
    assert window == extended[settled..settled + windows.Size()];
    assert extended[settled..][windows.hop..] == extended[settled + windows.hop..];
    FullWindowLess(windows, stream, settled, fours, window);
  }

  /** Samples that start the window from a frame, as many at least as are the stream's own. */
  ghost predicate Starting(windows: Windows, stream: seq<real>, settled: nat, samples: seq<real>) {
    && settled <= |stream|
    && windows.pad + |stream| - settled <= |samples| <= windows.Size()
    && samples == Window(windows, stream, settled)[..|samples|]
  }

  /** The frames read and those still to be read are the whole, and the samples left start the
      next window where there is one. */
  ghost predicate Ending(windows: Windows, stream: seq<real>, settled: nat, fours: seq<Four>, samples: seq<real>)
    requires windows.Valid()
  {
    forall fold: nat {:trigger Look(TheFours, fold)} | Look(TheFours, fold) ::
      && Goes(windows, stream, settled, fours)
      && (settled < |stream| ==> Starting(windows, stream, settled, samples))
  }

  lemma WindowMirrored(windows: Windows, stream: seq<real>, settled: nat, samples: seq<real>, window: seq<real>)
    requires Starting(windows, stream, settled, samples) && |window| == windows.Size()
    requires var ending := windows.pad + |stream| - settled;
      && (forall at | 0 <= at < |samples| :: window[at] == samples[at])
      && forall at | |samples| <= at < |window| ::
           window[at] == if 2 * ending - at - 2 >= 0 then samples[2 * ending - at - 2] else 0.0
    ensures window == Window(windows, stream, settled)
  {
    assert Look(TheFours, 0);
    MirroredIsWindow(windows, stream, settled, samples, window);
  }

  lemma EndSettled(
    windows: Windows, stream: seq<real>, settled: nat, fours: seq<Four>, samples: seq<real>, window: seq<real>,
    frames: nat)
    requires windows.Valid() && settled < |stream| && Ending(windows, stream, settled, fours, samples)
    requires window == Window(windows, stream, settled) && frames == Fewer(|stream| - settled, windows.hop)
    ensures settled + frames <= |stream|
    ensures Ending(windows, stream, settled + frames, fours + FoursOf(windows, window, frames), window[windows.hop..])
  {
    assert Look(TheFours, 0);
    OneWindowLess(windows, stream, settled, fours, window);
    if settled + windows.hop < |stream| {
      NextWindow(windows, stream, settled);
    } else {
      EndsAlike(windows, stream, settled + frames, settled + windows.hop);
    }
  }

  lemma {:induction false} LaneAsLong(interleaved: seq<real>, index: nat, width: nat)
    requires index < width && Banks.WholeFrames(interleaved, width)
    ensures |Banks.Lane(interleaved, index, width)| == |interleaved| / width
    decreases |interleaved|
  {
    if interleaved != [] {
      LaneAsLong(interleaved[width..], index, width);
      var place := |interleaved[width..]| / width;
      Divided(|interleaved| - width, width);
      Distributes(place, 1, width);
      OnePlace(|interleaved|, place + 1, width);
    }
  }

  /** One channel's samples, from where the next window starts, and what was heard so far. */
  class Hearing {
    const setup: Setup
    const windows: Windows
    const index: nat
    const width: nat
    var samples: seq<real>
    var begun: bool
    var table: Table
    var sampled: real
    var noted: nat
    var settled: nat
    ghost var stream: seq<real>
    ghost var fours: seq<Four>

    /** That its windows are those of its setup is looked at only where one is read. */
    ghost predicate Reads()
      reads this
    {
      && windows.Valid()
      && forall fold: nat {:trigger Look(TheWindows, fold)} | Look(TheWindows, fold) ::
           setup.Valid() && windows == WindowsOf(setup)
    }

    ghost predicate Valid()
      reads this
    {
      && Reads() && index < width
      && noted == |stream| && settled <= |stream|
      && Course(windows, stream, settled, fours) && HoldsAll(table, sampled, fours)
      && if begun then windows.pad < |stream| && samples == Extended(windows.pad, stream)[settled..]
         else samples == stream && settled == 0
    }

    /** No more is kept than a window, and none is kept that could have been read. */
    ghost predicate Open()
      reads this
    {
      if begun then |samples| < windows.Size() else |samples| <= windows.hop + windows.pad
    }

    constructor (setup: Setup, index: nat, width: nat)
      requires setup.Valid() && index < width
      ensures Valid() && Open() && stream == [] && windows == WindowsOf(setup)
      ensures this.index == index && this.width == width
    {
      this.setup, this.windows, this.index, this.width := setup, WindowsOf(setup), index, width;
      samples, begun, table, sampled, noted, settled := [], false, Nothing(), 0.0, 0, 0;
      stream, fours := [], [];
      Starts(WindowsOf(setup));
    }

    method Note(interleaved: seq<real>)
      requires Valid() && Open() && Banks.WholeFrames(interleaved, width)
      modifies this
      ensures Valid() && Open() && stream == old(stream) + Banks.Lane(interleaved, index, width)
    {
      Extend(Banks.Lane(interleaved, index, width), |interleaved| / width) by {
        LaneAsLong(interleaved, index, width);
      }
      if !begun && |samples| > windows.hop + windows.pad {
        Begin();
      }
      ghost var whole := stream;
      while begun && |samples| >= windows.Size()
        invariant Valid() && stream == whole
        invariant !begun ==> Open()
        decreases |samples|
      {
        SettleFull();
      }
    }

    method Extend(lane: seq<real>, frames: nat)
      requires Valid() && frames == |lane|
      modifies this
      ensures Valid() && stream == old(stream) + lane && begun == old(begun)
    {
      if begun {
        ExtendedOn(windows.pad, stream, lane, settled);
      }
      GoesOn(windows, stream, lane, settled, fours);
      samples := samples + lane;
      stream := stream + lane;
      noted := noted + frames;
    }

    /** The stream's start mirrored before it, as far as it is there. */
    method Begin()
      requires Valid() && !begun && |samples| > windows.pad
      modifies this`samples, this`begun
      ensures Valid() && begun && |samples| == windows.pad + old(|samples|)
    {
      samples := Extended(windows.pad, samples);
      assert samples == Extended(windows.pad, stream)[0..];
      begun := true;
    }

    method ReadOne(window: seq<real>, frames: nat)
      requires Reads() && |window| == windows.Size() && frames <= windows.hop && HoldsAll(table, sampled, fours)
      modifies this`table, this`sampled, this`fours
      ensures HoldsAll(table, sampled, fours) && fours == old(fours) + FoursOf(windows, window, frames)
    {
      assert Look(TheWindows, 0);
      table, sampled := ReadWindow(setup, window, frames, table, sampled, fours);
      fours := fours + FoursOf(windows, window, frames);
    }

    method SettleFull()
      requires Valid() && begun && |samples| >= windows.Size()
      modifies this
      ensures Valid() && begun && stream == old(stream) && |samples| < old(|samples|)
    {
      var window := samples[..windows.Size()];
      FullSettled(windows, stream, settled, fours, samples, window);
      ReadOne(window, windows.hop);
      samples, settled := samples[windows.hop..], settled + windows.hop;
    }

    method Finish()
      requires Valid() && Open()
      modifies this
      ensures stream == old(stream) && fours == Whole(windows, stream) && HoldsAll(table, sampled, fours)
    {
      GoesToEnd(windows, stream, settled, fours);
      if !begun {
        samples := Extended(windows.pad, samples);
        begun := true;
      }
      assert samples == Extended(windows.pad, stream)[settled..];
      assert samples == Window(windows, stream, settled)[..|samples|];
      ghost var whole := stream;
      while settled < noted
        invariant stream == whole && noted == |stream|
        invariant settled <= noted && Reads()
        invariant Ending(windows, stream, settled, fours, samples) && HoldsAll(table, sampled, fours)
        decreases noted - settled
      {
        SettleEnd();
      }
      assert Look(TheFours, 0);
      assert Rest(windows, stream, settled) == [];
    }

    method SettleEnd()
      requires Reads() && noted == |stream| && settled < noted
      requires Ending(windows, stream, settled, fours, samples) && HoldsAll(table, sampled, fours)
      modifies this
      ensures stream == old(stream) && noted == old(noted) && old(settled) < settled <= noted
      ensures Ending(windows, stream, settled, fours, samples) && HoldsAll(table, sampled, fours)
    {
      var window := MirroredWindow(windows, samples, noted, settled, stream, fours);
      var frames := Fewer(noted - settled, windows.hop);
      var left, next := window[windows.hop..], settled + frames;
      EndSettled(windows, stream, settled, fours, samples, window, frames);
      ReadOne(window, frames);
      samples, settled := left, next;
    }
  }

  /** The window that reads from a frame, mirrored as far as the samples left do not reach. */
  method MirroredWindow(
    windows: Windows, samples: seq<real>, noted: nat, settled: nat, ghost stream: seq<real>, ghost fours: seq<Four>)
      returns (window: seq<real>)
    requires windows.Valid() && noted == |stream| && settled < noted
    requires Ending(windows, stream, settled, fours, samples)
    ensures window == Window(windows, stream, settled)
  {
    assert Look(TheFours, 0);
    window := MirrorAfter(samples, windows.pad + noted - settled, windows.Size());
    WindowMirrored(windows, stream, settled, samples, window);
  }

  lemma EndsAlike(windows: Windows, stream: seq<real>, one: nat, other: nat)
    requires windows.Valid() && one >= |stream| && other >= |stream|
    ensures Rest(windows, stream, one) == Rest(windows, stream, other) == []
  {
  }

  /** However a stream of whole frames is cut, the table is that of the whole of it. */
  method HeardInPieces(setup: Setup, index: nat, width: nat, pieces: seq<seq<real>>)
      returns (table: Table, sampled: real)
    requires setup.Valid() && index < width
    requires forall k | 0 <= k < |pieces| :: Banks.WholeFrames(pieces[k], width)
    ensures HoldsAll(table, sampled, Whole(WindowsOf(setup), Banks.Lane(Banks.Joined(pieces), index, width)))
  {
    var hearing := new Hearing(setup, index, width);
    for k := 0 to |pieces|
      invariant hearing.Valid() && hearing.Open() && fresh(hearing)
      invariant hearing.windows == WindowsOf(setup) && hearing.index == index && hearing.width == width
      invariant Banks.WholeFrames(Banks.Joined(pieces[..k]), width)
      invariant hearing.stream == Banks.Lane(Banks.Joined(pieces[..k]), index, width)
    {
      assert pieces[..k + 1][..k] == pieces[..k];
      Banks.LaneJoined(Banks.Joined(pieces[..k]), pieces[k], index, width);
      Banks.WholeJoined(Banks.Joined(pieces[..k]), pieces[k], width);
      hearing.Note(pieces[k]);
    }
    assert pieces[..|pieces|] == pieces;
    hearing.Finish();
    table, sampled := hearing.table, hearing.sampled;
  }

  // ---------------------------------------------------------------- every channel together

  /** How high each frame of the first channels is. */
  function Channels(setup: Setup, interleaved: seq<real>, width: nat, upto: nat): (fours: seq<Four>)
    requires setup.Valid() && upto <= width
  {
    if upto == 0 then []
    else
      Channels(setup, interleaved, width, upto - 1)
      + Whole(WindowsOf(setup), Banks.Lane(interleaved, upto - 1, width))
  }

  function Louder(one: Table, other: Table): (louder: Table)
    requires Sized(one) && Sized(other)
    ensures Sized(louder)
    ensures forall row, column | 0 <= row < HALF_A_TABLE && 0 <= column < HALF_A_TABLE ::
      louder[row][column] == Max(one[row][column], other[row][column])
  {
    seq(HALF_A_TABLE, row requires 0 <= row < HALF_A_TABLE =>
      seq(HALF_A_TABLE, column requires 0 <= column < HALF_A_TABLE => Max(one[row][column], other[row][column])))
  }

  lemma LoudestTogether(one: seq<real>, loudest: real, other: seq<real>, louder: real)
    requires IsLoudest(0.0, one, loudest) && IsLoudest(0.0, other, louder)
    ensures IsLoudest(0.0, one + other, Max(loudest, louder))
  {
  }

  lemma HeldTogether(
    one: Table, sampled: real, fours: seq<Four>, other: Table, louder: real, more: seq<Four>)
    requires HoldsAll(one, sampled, fours) && HoldsAll(other, louder, more)
    ensures Sized(one) && Sized(other)
    ensures HoldsAll(Louder(one, other), Max(sampled, louder), fours + more)
  {
    AllHeld(one, sampled, fours);
    AllHeld(other, louder, more);
    LoudestTogether(WholesOf(fours), sampled, WholesOf(more), louder);
    assert WholesOf(fours + more) == WholesOf(fours) + WholesOf(more);
    TablesTogether(one, fours, other, more);
  }

  lemma TablesTogether(one: Table, fours: seq<Four>, other: Table, more: seq<Four>)
    requires Holds(one, fours) && Holds(other, more)
    ensures Holds(Louder(one, other), fours + more)
  {
    forall row, column | 0 <= row < HALF_A_TABLE && 0 <= column < HALF_A_TABLE
      ensures IsLoudest(0.0, EntrySums(row, column, fours + more), Louder(one, other)[row][column])
    {
      LoudestTogether(
        EntrySums(row, column, fours), one[row][column], EntrySums(row, column, more), other[row][column]);
      assert EntrySums(row, column, fours + more) == EntrySums(row, column, fours) + EntrySums(row, column, more);
    }
  }

  /** What a weighing has of how far the true peak is over the loudest sample. */
  function Between(index: nat, apart: real): (between: real) {
    Product()(WeighingOf(index).whole, if apart > 0.0 then apart else 0.0)
  }

  /** The loudest each weighing is over every frame of every channel, with what it has of the peak
      between samples; nothing where nothing is heard. */
  method Finished(setup: Setup, width: nat, pieces: seq<seq<real>>, truePeak: real)
      returns (figures: Option<seq<real>>, sampled: real)
    requires setup.Valid() && width > 0
    requires forall k | 0 <= k < |pieces| :: Banks.WholeFrames(pieces[k], width)
    ensures var fours := Channels(setup, Banks.Joined(pieces), width, width);
      && IsLoudest(0.0, WholesOf(fours), sampled)
      && (figures.None? <==> sampled == 0.0)
      && (figures.Some? ==> FiguresOver(figures.value, fours, truePeak - sampled))
  {
    var heard, loudest := HearChannels(setup, width, pieces);
    sampled := loudest;
    ghost var fours := Channels(setup, Banks.Joined(pieces), width, width);
    AllHeld(heard, loudest, fours);
    if loudest <= 0.0 {
      figures := None;
    } else {
      figures := Some(FiguresOf(heard, truePeak - loudest));
      FiguresHold(heard, fours, truePeak - loudest);
    }
  }

  method HearChannels(setup: Setup, width: nat, pieces: seq<seq<real>>) returns (heard: Table, loudest: real)
    requires setup.Valid() && width > 0
    requires forall k | 0 <= k < |pieces| :: Banks.WholeFrames(pieces[k], width)
    ensures HoldsAll(heard, loudest, Channels(setup, Banks.Joined(pieces), width, width))
  {
    heard, loudest := Nothing(), 0.0;
    ghost var joined := Banks.Joined(pieces);
    for index := 0 to width
      invariant HoldsAll(heard, loudest, Channels(setup, joined, width, index))
    {
      var table, louder := HeardInPieces(setup, index, width, pieces);
      HeldTogether(
        heard, loudest, Channels(setup, joined, width, index), table, louder,
        Whole(WindowsOf(setup), Banks.Lane(joined, index, width)));
      heard, loudest := Louder(heard, table), Max(loudest, louder);
    }
  }

  /** Each figure is the loudest its weighing is over every frame, with what it has of the rest. */
  ghost predicate FiguresOver(figures: seq<real>, fours: seq<Four>, apart: real) {
    && |figures| == WEIGHINGS
    && forall index | 0 <= index < WEIGHINGS ::
         IsLoudest(0.0, WeighedEach(index, fours), figures[index] - Between(index, apart))
  }

  lemma FiguresHold(heard: Table, fours: seq<Four>, apart: real)
    requires Holds(heard, fours)
    ensures FiguresOver(FiguresOf(heard, apart), fours, apart)
  {
    forall index | 0 <= index < WEIGHINGS
      ensures IsLoudest(0.0, WeighedEach(index, fours), FiguresOf(heard, apart)[index] - Between(index, apart))
    {
      HoldsEachWeighing(heard, fours, index);
    }
  }

  function FiguresOf(heard: Table, apart: real): (figures: seq<real>)
    requires Sized(heard)
    ensures |figures| == WEIGHINGS
    ensures forall index {:trigger figures[index]} | 0 <= index < WEIGHINGS ::
      figures[index] == EntryAt(heard, index) + Between(index, apart)
  {
    seq(WEIGHINGS, index requires 0 <= index < WEIGHINGS => EntryAt(heard, index) + Between(index, apart))
  }
}
