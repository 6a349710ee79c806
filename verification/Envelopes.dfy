/** The reach of every lane of a stream, column by column, and any part of it drawn as wide as
    is wanted. */
module Envelopes {
  import Banks
  import Splitting
  import opened Reducing
  import opened Places
  import opened Vectors

  const LANES: nat := 8
  const COLUMNS: nat := 2048
  const FRAMES_PER_UNIT: nat := 64

  datatype Gathered = Gathered(low: real, high: real, squares: real, samples: nat)

  const EMPTY := Gathered(0.0, 0.0, 0.0, 0)

  function Noted(held: Gathered, sample: real): (noted: Gathered) {
    if held.samples == 0 then Gathered(sample, sample, held.squares + sample * sample, 1)
    else Gathered(Min(held.low, sample), Max(held.high, sample), held.squares + sample * sample, held.samples + 1)
  }

  function Absorbed(held: Gathered, later: Gathered): (absorbed: Gathered) {
    if later.samples == 0 then held
    else if held.samples == 0 then later
    else
      Gathered(Min(held.low, later.low), Max(held.high, later.high),
               held.squares + later.squares, held.samples + later.samples)
  }

  /** What gathering samples one by one comes to. */
  function GatheredOf(samples: seq<real>): (gathered: Gathered)
    ensures gathered.samples == |samples|
    decreases |samples|
  {
    if samples == [] then EMPTY
    else Noted(GatheredOf(samples[..|samples| - 1]), samples[|samples| - 1])
  }

  function SquaresOf(samples: seq<real>): (sum: real)
    decreases |samples|
  {
    if samples == [] then 0.0
    else SquaresOf(samples[..|samples| - 1]) + samples[|samples| - 1] * samples[|samples| - 1]
  }

  lemma OneMoreNoted(samples: seq<real>, sample: real)
    ensures GatheredOf(samples + [sample]) == Noted(GatheredOf(samples), sample)
  {
    assert (samples + [sample])[..|samples|] == samples;
  }

  /** Nothing gathered passes the reach, and the reach is that of samples that were. */
  ghost predicate IsReachOf(low: real, high: real, samples: seq<real>) {
    && (forall k :: 0 <= k < |samples| ==> low <= samples[k] <= high)
    && (samples != [] ==> low in samples && high in samples)
  }

  lemma ReachOfOneMore(low: real, high: real, samples: seq<real>, sample: real)
    requires IsReachOf(low, high, samples) && samples != []
    ensures IsReachOf(Min(low, sample), Max(high, sample), samples + [sample])
  {
    var more := samples + [sample];
    assert forall k :: 0 <= k < |samples| ==> more[k] == samples[k];
    assert more[|samples|] == sample;
    assert low in more && high in more;
  }

  lemma {:induction false} GatheredBounds(samples: seq<real>)
    ensures IsReachOf(GatheredOf(samples).low, GatheredOf(samples).high, samples)
    decreases |samples|
  {
    if samples != [] {
      var before, last := samples[..|samples| - 1], samples[|samples| - 1];
      assert samples == before + [last];
      if before != [] {
        GatheredBounds(before);
        ReachOfOneMore(GatheredOf(before).low, GatheredOf(before).high, before, last);
      }
    }
  }

  lemma {:induction false} GatheredSquares(samples: seq<real>)
    ensures GatheredOf(samples).squares == SquaresOf(samples)
    decreases |samples|
  {
    if samples != [] {
      GatheredSquares(samples[..|samples| - 1]);
    }
  }

  lemma NotedIntoAbsorbed(held: Gathered, later: Gathered, sample: real)
    requires held.samples == 0 ==> held.squares == 0.0
    requires later.samples == 0 ==> later.squares == 0.0
    ensures Noted(Absorbed(held, later), sample) == Absorbed(held, Noted(later, sample))
  {
    var square := sample * sample;
  }

  /** Gathering in two places and absorbing the later is gathering it all in one. */
  lemma {:induction false} GatheringJoins(one: seq<real>, other: seq<real>)
    ensures GatheredOf(one + other) == Absorbed(GatheredOf(one), GatheredOf(other))
    decreases |other|
  {
    if other == [] {
      assert one + other == one;
    } else {
      var before, last := other[..|other| - 1], other[|other| - 1];
      assert one + other == one + before + [last] && other == before + [last];
      GatheringJoins(one, before);
      OneMoreNoted(one + before, last);
      OneMoreNoted(before, last);
      NotedIntoAbsorbed(GatheredOf(one), GatheredOf(before), last);
    }
  }

  lemma AbsorbingAssociates(one: Gathered, other: Gathered, last: Gathered)
    ensures Absorbed(Absorbed(one, other), last) == Absorbed(one, Absorbed(other, last))
    ensures Absorbed(EMPTY, one) == one || one.samples == 0
    ensures Absorbed(one, EMPTY) == one
  {
  }

  type Column = column: seq<Gathered> | |column| == LANES witness seq(LANES, _ => EMPTY)

  function ColumnAbsorbed(held: Column, later: Column): (absorbed: Column) {
    seq(LANES, lane requires 0 <= lane < LANES => Absorbed(held[lane], later[lane]))
  }

  lemma ColumnsAssociate()
    ensures Associates(ColumnAbsorbed)
  {
    forall one: Column, other: Column, last: Column
      ensures ColumnAbsorbed(ColumnAbsorbed(one, other), last) == ColumnAbsorbed(one, ColumnAbsorbed(other, last))
    {
      forall lane | 0 <= lane < LANES
        ensures ColumnAbsorbed(ColumnAbsorbed(one, other), last)[lane]
          == ColumnAbsorbed(one, ColumnAbsorbed(other, last))[lane]
      {
        AbsorbingAssociates(one[lane], other[lane], last[lane]);
      }
    }
  }

  type Frame = seq<real>

  ghost predicate Wide(frames: seq<Frame>, lane: nat) {
    forall k :: 0 <= k < |frames| ==> lane < |frames[k]|
  }

  /** The samples of one lane; a lane past the channels hears nothing. */
  function LaneOf(frames: seq<Frame>, lane: nat): (samples: seq<real>)
    ensures Wide(frames, lane) ==> |samples| == |frames|
    ensures Wide(frames, lane) ==> forall k :: 0 <= k < |frames| ==> samples[k] == frames[k][lane]
    decreases |frames|
  {
    if frames == [] then []
    else
      var before, last := LaneOf(frames[..|frames| - 1], lane), frames[|frames| - 1];
      if lane < |last| then before + [last[lane]] else before
  }

  function ColumnOf(frames: seq<Frame>): (column: Column) {
    seq(LANES, lane requires 0 <= lane < LANES => GatheredOf(LaneOf(frames, lane)))
  }

  lemma {:induction false} LanesJoin(one: seq<Frame>, other: seq<Frame>, lane: nat)
    ensures LaneOf(one + other, lane) == LaneOf(one, lane) + LaneOf(other, lane)
    decreases |other|
  {
    if other == [] {
      assert one + other == one;
    } else {
      assert (one + other)[..|one + other| - 1] == one + other[..|other| - 1];
      LanesJoin(one, other[..|other| - 1], lane);
    }
  }

  lemma ColumnsJoin(one: seq<Frame>, other: seq<Frame>)
    ensures ColumnOf(one + other) == ColumnAbsorbed(ColumnOf(one), ColumnOf(other))
  {
    forall lane | 0 <= lane < LANES
      ensures ColumnOf(one + other)[lane] == ColumnAbsorbed(ColumnOf(one), ColumnOf(other))[lane]
    {
      LanesJoin(one, other, lane);
      GatheringJoins(LaneOf(one, lane), LaneOf(other, lane));
    }
  }

  /** The column of each stretch. */
  function ColumnsOf(stretches: seq<seq<Frame>>): (columns: seq<Column>)
    ensures |columns| == |stretches|
    decreases |stretches|
  {
    if stretches == [] then [] else ColumnsOf(stretches[..|stretches| - 1]) + [ColumnOf(stretches[|stretches| - 1])]
  }

  lemma {:induction false} ColumnsOfAt(stretches: seq<seq<Frame>>, n: nat)
    requires n <= |stretches|
    ensures ColumnsOf(stretches)[..n] == ColumnsOf(stretches[..n])
    ensures ColumnsOf(stretches)[n..] == ColumnsOf(stretches[n..])
    decreases |stretches|
  {
    if n < |stretches| {
      var before := stretches[..|stretches| - 1];
      ColumnsOfAt(before, n);
      assert before[..n] == stretches[..n];
      assert stretches[n..][..|stretches| - 1 - n] == before[n..];
    } else {
      assert stretches[..n] == stretches;
    }
  }

  /** Stretches gathered apart and folded are the stretches gathered at once. */
  lemma {:induction false} FoldedIsGathered(stretches: seq<seq<Frame>>)
    requires stretches != []
    ensures Folded(ColumnAbsorbed, ColumnsOf(stretches)) == ColumnOf(Flat(stretches))
    decreases |stretches|
  {
    var before, last := stretches[..|stretches| - 1], stretches[|stretches| - 1];
    if before == [] {
      assert stretches == [] + [last];
      OnePartMore([], last);
      assert [] + last == last;
    } else {
      FoldedIsGathered(before);
      ColumnsJoin(Flat(before), last);
      assert ColumnsOf(stretches)[..|stretches| - 1] == ColumnsOf(before);
    }
  }

  /** Each column is that of its own stretch, all of one length but the last, and the stretches
      one after another are all that was heard. */
  ghost predicate Stands(columns: seq<Column>, stretches: seq<seq<Frame>>, heard: seq<Frame>, each: nat) {
    && Flat(stretches) == heard
    && EvenButLast(stretches, each)
    && columns == ColumnsOf(stretches)
  }

  lemma {:induction false} StretchesTaken(stretches: seq<seq<Frame>>, n: nat)
    requires n <= |stretches|
    ensures Flat(stretches) == Flat(stretches[..n]) + Flat(stretches[n..])
    decreases |stretches|
  {
    if n == |stretches| {
      assert stretches[..n] == stretches;
    } else {
      var before, last := stretches[..|stretches| - 1], stretches[|stretches| - 1];
      StretchesTaken(before, n);
      assert before[..n] == stretches[..n];
      assert stretches[n..][..|stretches| - 1 - n] == before[n..];
      assert Flat(stretches) == Flat(before) + last;
      assert Flat(stretches[n..]) == Flat(before[n..]) + last;
    }
  }

  /** One column more, of the stretches past those of the columns before it. */
  lemma OneGroupMore(stretches: seq<seq<Frame>>, before: seq<seq<Column>>, part: seq<Column>)
    requires Flat(before + [part]) == ColumnsOf(stretches)
    requires part != []
    ensures var n := |stretches| - |part|;
      && 0 <= n && Flat(before) == ColumnsOf(stretches[..n])
      && Folded(ColumnAbsorbed, part) == ColumnOf(Flat(stretches[n..]))
      && Flat(stretches) == Flat(stretches[..n]) + Flat(stretches[n..])
  {
    var n := |stretches| - |part|;
    OnePartMore(before, part);
    ColumnsOfAt(stretches, n);
    assert Flat(before) == ColumnsOf(stretches)[..n] && part == ColumnsOf(stretches)[n..];
    FoldedIsGathered(stretches[n..]);
    StretchesTaken(stretches, n);
  }

  lemma {:induction false} WholeGroups(
    stretches: seq<seq<Frame>>, columns: seq<Column>, parts: seq<seq<Column>>, perColumn: nat, each: nat)
      returns (groups: seq<seq<Frame>>)
    requires Flat(parts) == ColumnsOf(stretches) && Even(stretches, each)
    requires Columned(ColumnAbsorbed, columns, parts, perColumn) && Even(parts, perColumn)
    ensures Flat(groups) == Flat(stretches) && Even(groups, perColumn * each) && columns == ColumnsOf(groups)
    decreases |parts|
  {
    groups := [];
    if parts != [] {
      var last := |parts| - 1;
      assert parts == parts[..last] + [parts[last]];
      OneGroupMore(stretches, parts[..last], parts[last]);
      var n := |stretches| - perColumn;
      EvenlyFlat(stretches[n..], each);
      var before := WholeGroups(stretches[..n], columns[..last], parts[..last], perColumn, each);
      groups := before + [Flat(stretches[n..])];
      assert groups[..last] == before;
      assert columns == columns[..last] + [columns[last]];
    }
  }

  lemma ShorterFlat(stretches: seq<seq<Frame>>, each: nat, most: nat)
    requires EvenButLast(stretches, each) && 0 < |stretches| <= most
    ensures 0 < |Flat(stretches)| <= most * each
  {
    var before, last := stretches[..|stretches| - 1], stretches[|stretches| - 1];
    EvenlyFlat(before, each);
    AtMostAll(|before|, |last|, most, each);
  }

  lemma AtMostAll(before: nat, last: nat, most: nat, each: nat)
    requires before < most && last <= each
    ensures before * each + last <= most * each
  {
    var more := most - before - 1;
    assert most == (before + 1) + more;
    Distributes(before + 1, more, each);
    Distributes(before, 1, each);
  }

  /** The folds of the columns of stretches are the columns of longer stretches of the same. */
  lemma Groups(
    stretches: seq<seq<Frame>>, columns: seq<Column>, parts: seq<seq<Column>>, perColumn: nat, each: nat, whole: nat)
      returns (groups: seq<seq<Frame>>)
    requires Flat(parts) == ColumnsOf(stretches) && EvenButLast(stretches, each)
    requires Columned(ColumnAbsorbed, columns, parts, perColumn) && EvenButLast(parts, perColumn)
    requires whole == perColumn * each
    ensures Stands(columns, groups, Flat(stretches), whole)
  {
    groups := [];
    if parts != [] {
      var last := |parts| - 1;
      var part := parts[last];
      assert parts == parts[..last] + [part];
      OneGroupMore(stretches, parts[..last], part);
      var n := |stretches| - |part|;
      ShorterFlat(stretches[n..], each, perColumn);
      var before := WholeGroups(stretches[..n], columns[..last], parts[..last], perColumn, each);
      groups := before + [Flat(stretches[n..])];
      assert groups[..last] == before;
      assert columns == columns[..last] + [columns[last]];
    }
  }

  /** How far a lane reaches: its lowest, its highest, and the mean of its squares. */
  datatype Reach = Reach(low: real, high: real, power: real)

  const SILENT := Reach(0.0, 0.0, 0.0)

  function ReachOf(gathered: Gathered): (reach: Reach) {
    if gathered.samples == 0 then SILENT
    else Reach(gathered.low, gathered.high, gathered.squares / gathered.samples as real)
  }

  function ReachesOf(columns: seq<Column>): (reaches: seq<seq<Reach>>)
    ensures |reaches| == |columns|
    ensures forall k :: 0 <= k < |columns| ==> |reaches[k]| == LANES
    ensures forall k, lane :: 0 <= k < |columns| && 0 <= lane < LANES ==> reaches[k][lane] == ReachOf(columns[k][lane])
  {
    seq(|columns|, k requires 0 <= k < |columns| =>
      seq(LANES, lane requires 0 <= lane < LANES => ReachOf(columns[k][lane])))
  }

  datatype Envelope = Envelope(lanes: nat, framesPerColumn: nat, frames: nat, columns: seq<seq<Reach>>)

  /** Whole frames of what arrives; what is left of a last one is let go. */
  function FramesOf(interleaved: seq<real>, channels: nat): (frames: seq<Frame>)
    requires channels > 0
    ensures forall k :: 0 <= k < |frames| ==> |frames[k]| == channels
    decreases |interleaved|
  {
    if |interleaved| < channels then []
    else [interleaved[..channels]] + FramesOf(interleaved[channels..], channels)
  }

  /** Columns that are those of stretches of what was heard. */
  ghost predicate Draws(envelope: Envelope, stretches: seq<seq<Frame>>, heard: seq<Frame>) {
    && Flat(stretches) == heard && envelope.frames == |heard|
    && EvenButLast(stretches, envelope.framesPerColumn)
    && envelope.framesPerColumn > 0
    && envelope.columns == ReachesOf(ColumnsOf(stretches))
  }

  /** What a whole stream is drawn as: columns of the least doubling of a unit's frames that leaves
      fewer of them than the cap. */
  function EnvelopeOf(heard: seq<Frame>, lanes: nat): (envelope: Envelope) {
    var each := Widest(|Cut(heard, FRAMES_PER_UNIT)|, COLUMNS, 1) * FRAMES_PER_UNIT;
    Envelope(lanes, each, |heard|, ReachesOf(ColumnsOf(Cut(heard, each))))
  }

  /** Whatever draws a stream in columns as wide as that is what it is drawn as. */
  lemma DrawnOneWay(envelope: Envelope, stretches: seq<seq<Frame>>, every: seq<seq<Frame>>, heard: seq<Frame>)
    requires Draws(envelope, stretches, heard) && EvenButLast(every, FRAMES_PER_UNIT) && Flat(every) == heard
    requires envelope.framesPerColumn == Widest(|every|, COLUMNS, 1) * FRAMES_PER_UNIT
    ensures envelope == EnvelopeOf(heard, envelope.lanes)
  {
    CutOneWay(every, FRAMES_PER_UNIT);
    CutOneWay(stretches, envelope.framesPerColumn);
  }

  lemma LaneOfOneMore(frames: seq<Frame>, frame: Frame, lane: nat)
    requires lane < LANES
    ensures ColumnOf(frames + [frame])[lane]
      == if lane < |frame| then Noted(ColumnOf(frames)[lane], frame[lane]) else ColumnOf(frames)[lane]
  {
    assert (frames + [frame])[..|frames|] == frames;
    if lane < |frame| {
      OneMoreNoted(LaneOf(frames, lane), frame[lane]);
    }
  }

  /** Columns pushed for whole units, one unit being gathered, and every frame in one of them. */
  ghost predicate Gathers(
    pushed: seq<Column>, unit: Column, inUnit: nat, frames: nat, stretches: seq<seq<Frame>>, open: seq<Frame>) {
    && pushed == ColumnsOf(stretches) && Even(stretches, FRAMES_PER_UNIT)
    && unit == ColumnOf(open) && inUnit == |open| < FRAMES_PER_UNIT
    && frames == |Flat(stretches) + open|
  }

  function AtLeastOne(channels: nat): (channelled: nat)
    ensures channelled > 0
  {
    if channels < 1 then 1 else channels
  }

  function LanesOf(channels: nat): (lanes: nat)
    ensures 1 <= lanes <= LANES
  {
    if channels < 1 then 1 else if channels > LANES then LANES else channels
  }

  class Enveloping {
    const channels: nat
    const lanes: nat
    const columns: Doubling<Column>
    var unit: Column
    var inUnit: nat
    var frames: nat
    /** The stretches of the units pushed, and that of the unit being gathered. */
    ghost var stretches: seq<seq<Frame>>
    ghost var open: seq<Frame>

    ghost function Heard(): (heard: seq<Frame>)
      reads this
    {
      Flat(stretches) + open
    }

    ghost predicate Valid()
      reads this, columns
    {
      && columns.Valid() && columns.absorb == ColumnAbsorbed && columns.cap == COLUMNS
      && Gathers(columns.Pushed(), unit, inUnit, frames, stretches, open)
    }

    constructor (channels: nat)
      ensures Valid() && fresh(columns) && Heard() == []
      ensures this.channels == AtLeastOne(channels) && lanes == LanesOf(channels)
    {
      ColumnsAssociate();
      this.channels := AtLeastOne(channels);
      lanes := LanesOf(channels);
      columns := new Doubling(ColumnAbsorbed, COLUMNS);
      unit, inUnit, frames := seq(LANES, _ => EMPTY), 0, 0;
      stretches, open := [], [];
    }

    method Note(interleaved: seq<real>)
      requires Valid() && channels > 0
      modifies this, columns
      ensures Valid() && Heard() == old(Heard()) + FramesOf(interleaved, channels)
    {
      var left := interleaved;
      ghost var noted: seq<Frame> := [];
      while |left| >= channels
        invariant Valid()
        invariant Heard() == old(Heard()) + noted
        invariant noted + FramesOf(left, channels) == FramesOf(interleaved, channels)
        decreases |left|
      {
        NoteFrame(left[..channels]);
        noted := noted + [left[..channels]];
        left := left[channels..];
      }
      assert noted + [] == noted;
    }

    method NoteFrame(frame: Frame)
      requires Valid()
      modifies this, columns
      ensures Valid() && Heard() == old(Heard()) + [frame]
    {
      ghost var noted := open + [frame];
      var more := NotedEach(unit, frame, open);
      OneFrameMore(columns.Pushed(), unit, more, inUnit, frames, stretches, open, frame);
      unit := more;
      inUnit := inUnit + 1;
      frames := frames + 1;
      if inUnit == FRAMES_PER_UNIT {
        columns.Push(unit);
        stretches, open := stretches + [noted], [];
        unit := seq(LANES, _ => EMPTY);
        inUnit := 0;
      } else {
        open := noted;
      }
    }

    /** What is drawn of everything heard, in columns that each stand for as many frames. */
    method Finished() returns (envelope: Envelope, ghost drawn: seq<seq<Frame>>)
      requires Valid()
      modifies columns
      ensures Draws(envelope, drawn, Heard()) && envelope.lanes == lanes
      ensures |envelope.columns| <= COLUMNS && envelope == EnvelopeOf(Heard(), lanes)
    {
      ghost var heard := Heard();
      assert frames == |heard|;
      ghost var every := EveryStretch(columns.Pushed(), unit, inUnit, frames, stretches, open);
      assert Flat(every) == heard;
      if inUnit > 0 {
        columns.Push(unit);
      }
      assert columns.Pushed() == ColumnsOf(every);
      var held := columns.Finished();
      envelope := Envelope(lanes, columns.perColumn * FRAMES_PER_UNIT, frames, ReachesOf(held));
      drawn := DrawnFrom(every, held, columns.Columns(), columns.perColumn, envelope, heard);
    }
  }

  /** Frames of pieces cut between frames, one piece after another, are those of the whole. */
  lemma {:induction false} FramesJoined(one: seq<real>, other: seq<real>, channels: nat)
    requires channels > 0 && Banks.WholeFrames(one, channels)
    ensures FramesOf(one + other, channels) == FramesOf(one, channels) + FramesOf(other, channels)
    decreases |one|
  {
    if one == [] {
      assert one + other == other;
    } else {
      FramesJoined(one[channels..], other, channels);
      FirstFrame(one, other, channels);
      Splitting.Regrouped([one[..channels]], FramesOf(one[channels..], channels), FramesOf(other, channels));
    }
  }

  lemma FirstFrame(one: seq<real>, other: seq<real>, channels: nat)
    requires 0 < channels <= |one|
    ensures FramesOf(one + other, channels) == [one[..channels]] + FramesOf(one[channels..] + other, channels)
  {
    Banks.Split(one, other, channels);
    assert (one + other)[..channels] == one[..channels];
  }

  /** However a stream is cut between frames, it is drawn as the whole of it is. */
  method HeardInPieces(channels: nat, pieces: seq<seq<real>>) returns (envelope: Envelope)
    requires forall k | 0 <= k < |pieces| :: Banks.WholeFrames(pieces[k], AtLeastOne(channels))
    ensures envelope == EnvelopeOf(FramesOf(Banks.Joined(pieces), AtLeastOne(channels)), LanesOf(channels))
    ensures |envelope.columns| <= COLUMNS
  {
    var enveloping := new Enveloping(channels);
    for k := 0 to |pieces|
      invariant enveloping.Valid() && fresh(enveloping) && fresh(enveloping.columns)
      invariant enveloping.channels == AtLeastOne(channels) && enveloping.lanes == LanesOf(channels)
      invariant Banks.WholeFrames(Banks.Joined(pieces[..k]), enveloping.channels)
      invariant enveloping.Heard() == FramesOf(Banks.Joined(pieces[..k]), enveloping.channels)
    {
      assert pieces[..k + 1][..k] == pieces[..k];
      FramesJoined(Banks.Joined(pieces[..k]), pieces[k], enveloping.channels);
      Banks.WholeJoined(Banks.Joined(pieces[..k]), pieces[k], enveloping.channels);
      enveloping.Note(pieces[k]);
    }
    assert pieces[..|pieces|] == pieces;
    ghost var drawn;
    envelope, drawn := enveloping.Finished();
  }

  lemma DrawnFrom(
    every: seq<seq<Frame>>, held: seq<Column>, parts: seq<seq<Column>>, perColumn: nat, envelope: Envelope,
    heard: seq<Frame>)
      returns (drawn: seq<seq<Frame>>)
    requires Flat(parts) == ColumnsOf(every) && EvenButLast(every, FRAMES_PER_UNIT)
    requires Columned(ColumnAbsorbed, held, parts, perColumn) && EvenButLast(parts, perColumn) && perColumn > 0
    requires envelope.framesPerColumn == perColumn * FRAMES_PER_UNIT
    requires envelope.frames == |heard| && Flat(every) == heard
    requires envelope.columns == ReachesOf(held) && perColumn == Widest(|every|, COLUMNS, 1)
    ensures Draws(envelope, drawn, heard) && envelope == EnvelopeOf(heard, envelope.lanes)
  {
    drawn := Groups(every, held, parts, perColumn, FRAMES_PER_UNIT, envelope.framesPerColumn);
    DrawnOneWay(envelope, drawn, every, heard);
  }

  lemma EveryStretch(
    pushed: seq<Column>, unit: Column, inUnit: nat, frames: nat, stretches: seq<seq<Frame>>, open: seq<Frame>)
      returns (every: seq<seq<Frame>>)
    requires Gathers(pushed, unit, inUnit, frames, stretches, open)
    ensures EvenButLast(every, FRAMES_PER_UNIT) && Flat(every) == Flat(stretches) + open
    ensures ColumnsOf(every) == if inUnit > 0 then pushed + [unit] else pushed
  {
    every := if inUnit > 0 then stretches + [open] else stretches;
    if inUnit > 0 {
      assert every[..|stretches|] == stretches;
    }
  }

  lemma OneFrameMore(
    pushed: seq<Column>, unit: Column, noted: Column, inUnit: nat, frames: nat, stretches: seq<seq<Frame>>,
    open: seq<Frame>, frame: Frame)
    requires Gathers(pushed, unit, inUnit, frames, stretches, open) && noted == ColumnOf(open + [frame])
    ensures Flat(stretches) + (open + [frame]) == Flat(stretches) + open + [frame]
    ensures Flat(stretches + [open + [frame]]) + [] == Flat(stretches) + open + [frame]
    ensures if inUnit + 1 == FRAMES_PER_UNIT
      then Gathers(pushed + [noted], seq(LANES, _ => EMPTY), 0, frames + 1, stretches + [open + [frame]], [])
      else Gathers(pushed, noted, inUnit + 1, frames + 1, stretches, open + [frame])
  {
    var more := stretches + [open + [frame]];
    assert more[..|stretches|] == stretches;
    OnePartMore(stretches, open + [frame]);
    assert seq(LANES, _ => EMPTY) == ColumnOf([]);
  }

  /** Every lane's sample of a frame, noted where that lane's are. */
  method NotedEach(unit: Column, frame: Frame, ghost open: seq<Frame>) returns (noted: Column)
    requires unit == ColumnOf(open)
    ensures noted == ColumnOf(open + [frame])
  {
    var held: seq<Gathered> := unit;
    var many := if |frame| < LANES then |frame| else LANES;
    for lane := 0 to many
      invariant |held| == LANES
      invariant forall k :: 0 <= k < LANES ==> held[k] == if k < lane then Noted(unit[k], frame[k]) else unit[k]
    {
      held := held[lane := Noted(held[lane], frame[lane])];
    }
    noted := held;
    forall lane | 0 <= lane < LANES
      ensures noted[lane] == ColumnOf(open + [frame])[lane]
    {
      LaneOfOneMore(open, frame, lane);
    }
  }

  function Lowest(reaches: seq<Reach>): (low: real)
    requires reaches != []
    decreases |reaches|
  {
    var last := |reaches| - 1;
    if last == 0 then reaches[0].low else Min(Lowest(reaches[..last]), reaches[last].low)
  }

  function Highest(reaches: seq<Reach>): (high: real)
    requires reaches != []
    decreases |reaches|
  {
    var last := |reaches| - 1;
    if last == 0 then reaches[0].high else Max(Highest(reaches[..last]), reaches[last].high)
  }

  lemma {:induction false} LowestOfAll(reaches: seq<Reach>) returns (at: nat)
    requires reaches != []
    ensures forall k :: 0 <= k < |reaches| ==> Lowest(reaches) <= reaches[k].low
    ensures at < |reaches| && Lowest(reaches) == reaches[at].low
    decreases |reaches|
  {
    at := |reaches| - 1;
    if at > 0 {
      var before, last := reaches[..at], at;
      var found := LowestOfAll(before);
      assert forall k :: 0 <= k < last ==> reaches[k] == before[k];
      at := if Lowest(reaches) == reaches[last].low then last else found;
    }
  }

  lemma {:induction false} HighestOfAll(reaches: seq<Reach>) returns (at: nat)
    requires reaches != []
    ensures forall k :: 0 <= k < |reaches| ==> reaches[k].high <= Highest(reaches)
    ensures at < |reaches| && Highest(reaches) == reaches[at].high
    decreases |reaches|
  {
    at := |reaches| - 1;
    if at > 0 {
      var before, last := reaches[..at], at;
      var found := HighestOfAll(before);
      assert forall k :: 0 <= k < last ==> reaches[k] == before[k];
      at := if Highest(reaches) == reaches[last].high then last else found;
    }
  }

  function Powers(reaches: seq<Reach>): (sum: real)
    decreases |reaches|
  {
    if reaches == [] then 0.0 else Powers(reaches[..|reaches| - 1]) + reaches[|reaches| - 1].power
  }

  function Merged(reaches: seq<Reach>): (merged: Reach) {
    if reaches == [] then SILENT
    else Reach(Lowest(reaches), Highest(reaches), Powers(reaches) / |reaches| as real)
  }

  lemma OneReachMore(reaches: seq<Reach>, reach: Reach)
    ensures var more := reaches + [reach];
      && Powers(more) == Powers(reaches) + reach.power
      && Lowest(more) == (if reaches == [] then reach.low else Min(Lowest(reaches), reach.low))
      && Highest(more) == (if reaches == [] then reach.high else Max(Highest(reaches), reach.high))
  {
    assert (reaches + [reach])[..|reaches|] == reaches;
  }

  method Merge(reaches: seq<Reach>) returns (merged: Reach)
    ensures merged == Merged(reaches)
  {
    if |reaches| == 0 {
      return SILENT;
    }
    var low, high, squares, count := reaches[0].low, reaches[0].high, 0.0, 0;
    assert reaches[..0] == [];
    while count < |reaches|
      invariant 0 <= count <= |reaches|
      invariant squares == Powers(reaches[..count])
      invariant if count == 0 then low == reaches[0].low && high == reaches[0].high
        else low == Lowest(reaches[..count]) && high == Highest(reaches[..count])
    {
      OneReachMore(reaches[..count], reaches[count]);
      assert reaches[..count + 1] == reaches[..count] + [reaches[count]];
      low := Min(low, reaches[count].low);
      high := Max(high, reaches[count].high);
      squares := squares + reaches[count].power;
      count := count + 1;
    }
    assert reaches[..count] == reaches;
    merged := Reach(low, high, squares / count as real);
  }

  function From(frames: nat, wanted: nat, nth: nat): (from: nat)
    requires wanted > 0
  {
    nth * frames / wanted
  }

  function To(frames: nat, wanted: nat, nth: nat): (to: nat)
    requires wanted > 0
  {
    var to := (nth + 1) * frames / wanted;
    if to > From(frames, wanted, nth) + 1 then to else From(frames, wanted, nth) + 1
  }

  function ColumnAt(envelope: Envelope, frame: nat): (at: nat)
    requires envelope.framesPerColumn > 0 && envelope.columns != []
    ensures at < |envelope.columns|
  {
    var at := frame / envelope.framesPerColumn;
    if at < |envelope.columns| then at else |envelope.columns| - 1
  }

  ghost predicate EachWide(columns: seq<seq<Reach>>, lane: nat) {
    forall k :: 0 <= k < |columns| ==> lane < |columns[k]|
  }

  predicate Drawn(envelope: Envelope, lane: nat, wanted: nat) {
    && lane < envelope.lanes && lane < LANES && envelope.framesPerColumn > 0
    && envelope.frames > 0 && wanted > 0 && envelope.columns != []
  }

  /** The reaches of one lane over the columns the frames of one place fall in. */
  function Reached(envelope: Envelope, lane: nat, wanted: nat, nth: nat): (reached: seq<Reach>)
    requires Drawn(envelope, lane, wanted) && EachWide(envelope.columns, lane)
  {
    var first := ColumnAt(envelope, From(envelope.frames, wanted, nth));
    var past := ColumnAt(envelope, To(envelope.frames, wanted, nth) - 1) + 1;
    if first <= past then
      seq(past - first, k requires 0 <= k < past - first => envelope.columns[first + k][lane])
    else []
  }

  function Condensed(envelope: Envelope, lane: nat, wanted: nat): (condensed: seq<Reach>)
    requires EachWide(envelope.columns, lane) || !Drawn(envelope, lane, wanted)
  {
    if !Drawn(envelope, lane, wanted) then []
    else seq(wanted, nth requires 0 <= nth < wanted => Merged(Reached(envelope, lane, wanted, nth)))
  }

  /** A lane drawn as wide as is wanted, place by place. */
  method Condense(envelope: Envelope, lane: nat, wanted: nat) returns (condensed: seq<Reach>)
    requires EachWide(envelope.columns, lane) || !Drawn(envelope, lane, wanted)
    ensures condensed == Condensed(envelope, lane, wanted)
  {
    condensed := [];
    if Drawn(envelope, lane, wanted) {
      for nth := 0 to wanted
        invariant |condensed| == nth
        invariant forall k | 0 <= k < nth :: condensed[k] == Merged(Reached(envelope, lane, wanted, k))
      {
        var merged := Merge(Reached(envelope, lane, wanted, nth));
        condensed := condensed + [merged];
      }
    }
  }

  lemma PlaceWithin(frames: nat, wanted: nat, nth: nat)
    requires frames > 0 && nth < wanted
    ensures From(frames, wanted, nth) < To(frames, wanted, nth) <= frames
  {
    var from, to := nth * frames / wanted, (nth + 1) * frames / wanted;
    Divided(nth * frames, wanted);
    Divided((nth + 1) * frames, wanted);
    Steadily(nth + 1, wanted, frames);
    Distributes(nth, 1, frames);
    Steadily(frames, from, wanted);
    Steadily(frames + 1, to, wanted);
    Distributes(frames, 1, wanted);
  }

  lemma ColumnsInOrder(frame: nat, later: nat, each: nat)
    requires frame <= later && each > 0
    ensures frame / each <= later / each
  {
    Divided(frame, each);
    Divided(later, each);
    FallInOrder(frame, frame / each, later, later / each, each);
  }

  lemma LastOf(stretches: seq<seq<Frame>>, each: nat)
    requires EvenButLast(stretches, each) && stretches != []
    ensures var last := |stretches| - 1;
      && Flat(stretches) == Flat(stretches[..last]) + stretches[last]
      && |Flat(stretches[..last])| == last * each && Even(stretches[..last], each)
  {
    EvenlyFlat(stretches[..|stretches| - 1], each);
  }

  /** Every frame heard stands in the column its number falls in. */
  lemma FoundWhereItFalls(stretches: seq<seq<Frame>>, each: nat, frame: nat, at: nat, within: nat)
    requires EvenButLast(stretches, each) && frame < |Flat(stretches)|
    requires within < each && frame == at * each + within
    ensures at < |stretches| && within < |stretches[at]|
    ensures Flat(stretches)[frame] == stretches[at][within]
  {
    LastOf(stretches, each);
    var last := |stretches| - 1;
    var before := stretches[..last];
    Steadily(at + 1, last, each);
    Distributes(at, 1, each);
    Steadily(last, at, each);
    Steadily(last + 1, at, each);
    Distributes(last, 1, each);
    if at < last {
      EvenlyFlat(before, each);
      assert StandsAt(Flat(before), at * each, before[at]);
      assert before[at][within] == Flat(before)[at * each..at * each + each][within];
    }
  }

  lemma StandsInItsColumn(stretches: seq<seq<Frame>>, each: nat, frame: nat)
    requires EvenButLast(stretches, each) && each > 0 && frame < |Flat(stretches)|
    ensures frame / each < |stretches| && frame % each < |stretches[frame / each]|
    ensures Flat(stretches)[frame] == stretches[frame / each][frame % each]
  {
    Divided(frame, each);
    FoundWhereItFalls(stretches, each, frame, frame / each, frame % each);
  }

  lemma FirstApart<T>(parts: seq<T>, at: nat)
    requires at < |parts|
    ensures parts[at..] == [parts[at]] + parts[at + 1..]
  {
  }

  lemma OneAmong(stretches: seq<seq<Frame>>, at: nat)
    requires at < |stretches|
    ensures Flat(stretches) == Flat(stretches[..at]) + (stretches[at] + Flat(stretches[at + 1..]))
  {
    StretchesTaken(stretches, at);
    FlatOfFirst(stretches[at], stretches[at + 1..]);
    FirstApart(stretches, at);
  }

  lemma WideAmong(before: seq<Frame>, among: seq<Frame>, after: seq<Frame>, lane: nat)
    requires Wide(before + (among + after), lane)
    ensures Wide(among, lane)
  {
    forall k | 0 <= k < |among|
      ensures lane < |among[k]|
    {
      assert (before + (among + after))[|before| + k] == among[k];
    }
  }

  lemma StretchesWide(stretches: seq<seq<Frame>>, at: nat, lane: nat)
    requires at < |stretches| && Wide(Flat(stretches), lane)
    ensures Wide(stretches[at], lane)
  {
    OneAmong(stretches, at);
    WideAmong(Flat(stretches[..at]), stretches[at], Flat(stretches[at + 1..]), lane);
  }

  /** A column's reach is that of the samples of its stretch. */
  lemma ColumnReaches(envelope: Envelope, stretches: seq<seq<Frame>>, heard: seq<Frame>, at: nat, lane: nat)
    requires Draws(envelope, stretches, heard) && at < |stretches| && lane < LANES
    ensures |envelope.columns| == |stretches| && lane < |envelope.columns[at]|
    ensures envelope.columns[at][lane] == ReachOf(GatheredOf(LaneOf(stretches[at], lane)))
    ensures IsReachOf(envelope.columns[at][lane].low, envelope.columns[at][lane].high, LaneOf(stretches[at], lane))
  {
    ColumnsOfAt(stretches, at);
    ColumnsOfAt(stretches[at..], 1);
    assert stretches[at..][..1] == [stretches[at]];
    assert ColumnsOf(stretches)[at..][..1][0] == ColumnsOf(stretches)[at];
    GatheredBounds(LaneOf(stretches[at], lane));
  }

  /** The columns a place is drawn from: those the first and the last of its frames fall in and
      all between. */
  lemma ReachedBetween(
    envelope: Envelope, stretches: seq<seq<Frame>>, heard: seq<Frame>, lane: nat, wanted: nat, nth: nat)
    requires Draws(envelope, stretches, heard) && Drawn(envelope, lane, wanted) && EachWide(envelope.columns, lane)
    requires nth < wanted
    ensures var each := envelope.framesPerColumn;
      var first, last := From(|heard|, wanted, nth) / each, (To(|heard|, wanted, nth) - 1) / each;
      && first <= last < |stretches| == |envelope.columns|
      && Reached(envelope, lane, wanted, nth) == LaneAcross(envelope.columns, lane, first, last)
  {
    var each := envelope.framesPerColumn;
    PlaceWithin(|heard|, wanted, nth);
    var from, to := From(|heard|, wanted, nth), To(|heard|, wanted, nth);
    ColumnsInOrder(from, to - 1, each);
    StandsInItsColumn(stretches, each, from);
    StandsInItsColumn(stretches, each, to - 1);
  }

  function LaneAcross(columns: seq<seq<Reach>>, lane: nat, first: nat, last: nat): (across: seq<Reach>)
    requires first <= last < |columns| && EachWide(columns, lane)
  {
    seq(last + 1 - first, k requires 0 <= k < last + 1 - first => columns[first + k][lane])
  }

  lemma MergedBounds(columns: seq<seq<Reach>>, lane: nat, first: nat, last: nat, at: nat)
    requires first <= at <= last < |columns| && EachWide(columns, lane)
    ensures Merged(LaneAcross(columns, lane, first, last)).low <= columns[at][lane].low
    ensures columns[at][lane].high <= Merged(LaneAcross(columns, lane, first, last)).high
  {
    var reached := LaneAcross(columns, lane, first, last);
    assert reached[at - first] == columns[at][lane];
    var _ := LowestOfAll(reached);
    var _ := HighestOfAll(reached);
  }

  lemma MergedReached(columns: seq<seq<Reach>>, lane: nat, first: nat, last: nat) returns (lowest: nat, highest: nat)
    requires first <= last < |columns| && EachWide(columns, lane)
    ensures first <= lowest <= last && first <= highest <= last
    ensures Merged(LaneAcross(columns, lane, first, last)).low == columns[lowest][lane].low
    ensures Merged(LaneAcross(columns, lane, first, last)).high == columns[highest][lane].high
  {
    var reached := LaneAcross(columns, lane, first, last);
    var low := LowestOfAll(reached);
    var high := HighestOfAll(reached);
    lowest, highest := first + low, first + high;
  }

  lemma HeardWithin(envelope: Envelope, stretches: seq<seq<Frame>>, heard: seq<Frame>, lane: nat, frame: nat)
    requires Draws(envelope, stretches, heard) && frame < |heard| && lane < LANES
    requires EachWide(envelope.columns, lane) && Wide(heard, lane)
    ensures var at := frame / envelope.framesPerColumn;
      && at < |envelope.columns|
      && envelope.columns[at][lane].low <= heard[frame][lane] <= envelope.columns[at][lane].high
  {
    var each := envelope.framesPerColumn;
    StandsInItsColumn(stretches, each, frame);
    var at := frame / each;
    ColumnReaches(envelope, stretches, heard, at, lane);
    StretchesWide(stretches, at, lane);
    assert LaneOf(stretches[at], lane)[frame % each] == heard[frame][lane];
  }

  /** However wide it is drawn, no sample of the frames a place stands for passes its reach. */
  lemma CondensedBounds(
    envelope: Envelope, stretches: seq<seq<Frame>>, heard: seq<Frame>, lane: nat, wanted: nat, nth: nat, frame: nat)
    requires Draws(envelope, stretches, heard) && Drawn(envelope, lane, wanted) && EachWide(envelope.columns, lane)
    requires nth < wanted && From(|heard|, wanted, nth) <= frame < To(|heard|, wanted, nth)
    requires Wide(heard, lane)
    ensures frame < |heard|
    ensures var drawn := Condensed(envelope, lane, wanted)[nth]; drawn.low <= heard[frame][lane] <= drawn.high
  {
    var each := envelope.framesPerColumn;
    PlaceWithin(|heard|, wanted, nth);
    ReachedBetween(envelope, stretches, heard, lane, wanted, nth);
    var from, to := From(|heard|, wanted, nth), To(|heard|, wanted, nth);
    ColumnsInOrder(from, frame, each);
    ColumnsInOrder(frame, to - 1, each);
    HeardWithin(envelope, stretches, heard, lane, frame);
    MergedBounds(envelope.columns, lane, from / each, (to - 1) / each, frame / each);
  }

  /** The reach drawn is that of samples heard in the columns the place falls in. */
  lemma CondensedReached(
    envelope: Envelope, stretches: seq<seq<Frame>>, heard: seq<Frame>, lane: nat, wanted: nat, nth: nat)
      returns (lowest: nat, highest: nat)
    requires Draws(envelope, stretches, heard) && Drawn(envelope, lane, wanted) && EachWide(envelope.columns, lane)
    requires nth < wanted && Wide(heard, lane)
    ensures var each := envelope.framesPerColumn;
      var first, last := From(|heard|, wanted, nth) / each, (To(|heard|, wanted, nth) - 1) / each;
      && lowest < |heard| && highest < |heard|
      && first <= lowest / each <= last && first <= highest / each <= last
      && Condensed(envelope, lane, wanted)[nth].low == heard[lowest][lane]
      && Condensed(envelope, lane, wanted)[nth].high == heard[highest][lane]
  {
    var each := envelope.framesPerColumn;
    ReachedBetween(envelope, stretches, heard, lane, wanted, nth);
    var first, last := From(|heard|, wanted, nth) / each, (To(|heard|, wanted, nth) - 1) / each;
    var low, high := MergedReached(envelope.columns, lane, first, last);
    lowest := HeardAt(envelope, stretches, heard, lane, low, true);
    highest := HeardAt(envelope, stretches, heard, lane, high, false);
  }

  lemma HeardAt(envelope: Envelope, stretches: seq<seq<Frame>>, heard: seq<Frame>, lane: nat, at: nat, low: bool)
      returns (frame: nat)
    requires Draws(envelope, stretches, heard) && at < |stretches| && lane < LANES
    requires Wide(heard, lane)
    ensures |envelope.columns| == |stretches| && lane < |envelope.columns[at]|
    ensures frame < |heard| && frame / envelope.framesPerColumn == at
    ensures heard[frame][lane] == if low then envelope.columns[at][lane].low else envelope.columns[at][lane].high
  {
    ColumnReaches(envelope, stretches, heard, at, lane);
    StretchesWide(stretches, at, lane);
    var samples := LaneOf(stretches[at], lane);
    var reach := envelope.columns[at][lane];
    var k :| 0 <= k < |samples| && samples[k] == if low then reach.low else reach.high;
    frame := FrameOf(stretches, envelope.framesPerColumn, at, k);
  }

  lemma FrameOf(stretches: seq<seq<Frame>>, each: nat, at: nat, k: nat) returns (frame: nat)
    requires EvenButLast(stretches, each) && each > 0 && at < |stretches| && k < |stretches[at]|
    ensures frame < |Flat(stretches)| && frame / each == at && Flat(stretches)[frame] == stretches[at][k]
  {
    EvenlyFlat(stretches[..at], each);
    OneAmong(stretches, at);
    Quotient(at, k, each);
    frame := at * each + k;
  }

  lemma SquaresJoin(one: seq<real>, other: seq<real>)
    ensures SquaresOf(one + other) == SquaresOf(one) + SquaresOf(other)
  {
    GatheringJoins(one, other);
    GatheredSquares(one);
    GatheredSquares(other);
    GatheredSquares(one + other);
  }

  /** Powers that are the means of as many squares each add up as the squares do. */
  ghost predicate MeanOf(reach: Reach, squares: real, many: nat) {
    Comes(reach.power, many, squares)
  }

  ghost predicate Comes(mean: real, many: nat, sum: real) {
    mean * many as real == sum
  }

  lemma ColumnPower(envelope: Envelope, stretches: seq<seq<Frame>>, heard: seq<Frame>, at: nat, lane: nat)
    requires Draws(envelope, stretches, heard) && at < |stretches| && lane < LANES && Wide(heard, lane)
    ensures |envelope.columns| == |stretches| && lane < |envelope.columns[at]|
    ensures MeanOf(envelope.columns[at][lane], SquaresOf(LaneOf(stretches[at], lane)), |stretches[at]|)
  {
    ColumnReaches(envelope, stretches, heard, at, lane);
    StretchesWide(stretches, at, lane);
    var samples := LaneOf(stretches[at], lane);
    GatheredSquares(samples);
    MeanOfGathered(GatheredOf(samples), SquaresOf(samples));
  }

  lemma MeanOfGathered(gathered: Gathered, squares: real)
    requires gathered.samples > 0 && gathered.squares == squares
    ensures MeanOf(ReachOf(gathered), squares, gathered.samples)
  {
  }

  function Sum(terms: seq<real>): (sum: real)
    decreases |terms|
  {
    if terms == [] then 0.0 else Sum(terms[..|terms| - 1]) + terms[|terms| - 1]
  }

  lemma {:induction false} MeansAddUp(reaches: seq<Reach>, squares: seq<real>, many: nat)
    requires |reaches| == |squares|
    requires forall k :: 0 <= k < |reaches| ==> MeanOf(reaches[k], squares[k], many)
    ensures Comes(Powers(reaches), many, Sum(squares))
    decreases |reaches|
  {
    if reaches != [] {
      var last := |reaches| - 1;
      MeansAddUp(reaches[..last], squares[..last], many);
      assert MeanOf(reaches[last], squares[last], many);
      Spread(Powers(reaches[..last]), reaches[last].power, many as real);
    }
  }

  lemma Spread(one: real, other: real, each: real)
    ensures (one + other) * each == one * each + other * each
  {
  }

  /** The squares of each stretch of a lane. */
  function SquaresEach(stretches: seq<seq<Frame>>, lane: nat): (squares: seq<real>)
    ensures |squares| == |stretches|
  {
    seq(|stretches|, k requires 0 <= k < |stretches| => SquaresOf(LaneOf(stretches[k], lane)))
  }

  lemma {:induction false} SquaresOfAll(stretches: seq<seq<Frame>>, lane: nat)
    ensures Sum(SquaresEach(stretches, lane)) == SquaresOf(LaneOf(Flat(stretches), lane))
    decreases |stretches|
  {
    if stretches != [] {
      var before, last := stretches[..|stretches| - 1], stretches[|stretches| - 1];
      SquaresOfAll(before, lane);
      LanesJoin(Flat(before), last, lane);
      SquaresJoin(LaneOf(Flat(before), lane), LaneOf(last, lane));
      assert SquaresEach(stretches, lane)[..|before|] == SquaresEach(before, lane);
    }
  }

  /** Over columns of as many frames each, the mean of their powers is that of every sample in
      them. */
  lemma PowersOfWhole(
    envelope: Envelope, stretches: seq<seq<Frame>>, heard: seq<Frame>, lane: nat, first: nat, last: nat, many: nat)
    requires Draws(envelope, stretches, heard) && lane < LANES && Wide(heard, lane) && EachWide(envelope.columns, lane)
    requires first <= last < |stretches| && |stretches| == |envelope.columns|
    requires forall at :: first <= at <= last ==> |stretches[at]| == many
    ensures Comes(Powers(LaneAcross(envelope.columns, lane, first, last)), many,
                  SquaresOf(LaneOf(Flat(stretches[first..last + 1]), lane)))
  {
    var reaches := LaneAcross(envelope.columns, lane, first, last);
    var among := stretches[first..last + 1];
    var squares := SquaresEach(among, lane);
    forall k | 0 <= k < |reaches| ensures MeanOf(reaches[k], squares[k], many) {
      ColumnPower(envelope, stretches, heard, first + k, lane);
      assert among[k] == stretches[first + k];
    }
    MeansAddUp(reaches, squares, many);
    SquaresOfAll(among, lane);
  }
}
