/** The loudest moments a stream comes to, few enough to keep and each coded in steps of a
    decibel, none of its tiles louder than one of them in any node. */
module Peaks {
  import opened Vectors
  import opened Wrappers
  import opened Tiling

  const WHOLE: nat := 0
  const MOMENTS_KEPT: nat := 8
  const PEAK_STEPS_A_DECIBEL := 16.0
  const PEAK_CODE_ZERO_DB := 200.0
  const LARGEST_CODE: nat := 65535
  const SILENT_PEAK: nat := 0
  const STEPS_BELOW_A_DECIBEL := 4.0
  const SILENT_STEP: nat := 255
  const DEEPEST_STEP: nat := 254
  const TILES_REACHED_EACH_WAY: nat := 2
  const GROUPED_FROM_AT_MOST: nat := 1024
  const QUIETEST_WEIGHED := 0.001
  const WIDEST_TOLERANCE := 10000.0
  const TOLERANCE_HALVINGS: nat := 40

  // ---------------------------------------------------------------- decibels and codes

  /** Amplitudes in decibels and back. */
  datatype Decibels = Decibels(of: real -> real, amplitude: real -> real) {
    ghost predicate Lawful() {
      && (forall height {:trigger of(height)} | height > 0.0 :: amplitude(of(height)) == height)
      && (forall one, other {:trigger amplitude(one), amplitude(other)}
           | one < other :: amplitude(one) < amplitude(other))
      && (forall one {:trigger amplitude(one)} :: amplitude(one) > 0.0)
    }

    lemma NoQuieter(one: real, other: real)
      requires Lawful() && 0.0 < one <= other
      ensures of(one) <= of(other)
    {
      assert amplitude(of(one)) == one && amplitude(of(other)) == other;
    }

    lemma AtLeast(one: real, other: real)
      requires Lawful() && one <= other
      ensures amplitude(one) <= amplitude(other)
    {
      assert one < other ==> amplitude(one) < amplitude(other);
    }
  }

  datatype Moment = Moment(loudest: nat, steps: seq<nat>)

  function Ceiling(x: real): int {
    -(-x).Floor
  }

  function Clamped(x: int, least: nat, most: nat): (clamped: nat)
    requires least <= most
    ensures least <= clamped <= most
  {
    if x < least then least else if x > most then most else x
  }

  function DecibelsOf(code: nat): real {
    code as real / PEAK_STEPS_A_DECIBEL - PEAK_CODE_ZERO_DB
  }

  function CodeAbove(decibels: Decibels, peak: real): (code: nat) {
    if peak <= 0.0 then SILENT_PEAK
    else Clamped(Ceiling((decibels.of(peak) + PEAK_CODE_ZERO_DB) * PEAK_STEPS_A_DECIBEL), 1, LARGEST_CODE)
  }

  function StepBelow(decibels: Decibels, loudestDb: real, height: real): (step: nat) {
    if height <= 0.0 then SILENT_STEP
    else Clamped(((loudestDb - decibels.of(height)) * STEPS_BELOW_A_DECIBEL).Floor, 0, DEEPEST_STEP)
  }

  function LoudestOfAll(heights: Heights): (loudest: real)
    ensures loudest >= 0.0 && forall n | 0 <= n < |heights| :: heights[n] <= loudest
    ensures loudest > 0.0 ==> loudest in heights
  {
    if heights == [] then 0.0 else Max(LoudestOfAll(heights[..|heights| - 1]), heights[|heights| - 1])
  }

  function Silent(width: nat): Moment {
    Moment(SILENT_PEAK, seq(width, _ => SILENT_STEP))
  }

  function Coded(decibels: Decibels, heights: Heights): (moment: Moment)
    ensures |moment.steps| == |heights|
  {
    var code := CodeAbove(decibels, LoudestOfAll(heights));
    if code == SILENT_PEAK then Silent(|heights|)
    else
      Moment(code, seq(|heights|, n requires 0 <= n < |heights| => StepBelow(decibels, DecibelsOf(code), heights[n])))
  }

  function HeightCoded(decibels: Decibels, loudest: nat, step: nat): (height: real) {
    if loudest == SILENT_PEAK || step == SILENT_STEP then 0.0
    else decibels.amplitude(DecibelsOf(loudest) - step as real / STEPS_BELOW_A_DECIBEL)
  }

  function HeightsCoded(decibels: Decibels, moment: Moment): (heights: Heights)
    ensures |heights| == |moment.steps|
    ensures forall n | 0 <= n < |moment.steps| :: heights[n] == HeightCoded(decibels, moment.loudest, moment.steps[n])
  {
    seq(|moment.steps|, n requires 0 <= n < |moment.steps| => HeightCoded(decibels, moment.loudest, moment.steps[n]))
  }

  /** Loud enough to be past the largest code. */
  predicate PastEveryCode(decibels: Decibels, loudest: real) {
    loudest > 0.0 && DecibelsOf(LARGEST_CODE) < decibels.of(loudest)
  }

  lemma CodedAbove(decibels: Decibels, loudest: real)
    requires decibels.Lawful() && loudest > 0.0
    ensures decibels.of(loudest) <= DecibelsOf(CodeAbove(decibels, loudest)) <==> !PastEveryCode(decibels, loudest)
    ensures PastEveryCode(decibels, loudest) ==> CodeAbove(decibels, loudest) == LARGEST_CODE
  {
  }

  lemma CodedHeight(decibels: Decibels, code: nat, height: real)
    requires decibels.Lawful() && height > 0.0 && code != SILENT_PEAK
    requires decibels.of(height) <= DecibelsOf(code)
    ensures height <= HeightCoded(decibels, code, StepBelow(decibels, DecibelsOf(code), height))
  {
    var step := StepBelow(decibels, DecibelsOf(code), height);
    var below := (DecibelsOf(code) - decibels.of(height)) * STEPS_BELOW_A_DECIBEL;
    assert step as real <= below;
    decibels.AtLeast(decibels.of(height), DecibelsOf(code) - step as real / STEPS_BELOW_A_DECIBEL);
  }

  /** Coding rounds every node up, just where the loudest of them is not past every code. */
  lemma CodedCovers(decibels: Decibels, heights: Heights)
    requires decibels.Lawful()
    ensures Under(heights, HeightsCoded(decibels, Coded(decibels, heights)))
      <==> !PastEveryCode(decibels, LoudestOfAll(heights))
  {
    var loudest := LoudestOfAll(heights);
    var code, moment := CodeAbove(decibels, loudest), Coded(decibels, heights);
    if loudest > 0.0 {
      CodedAbove(decibels, loudest);
      if PastEveryCode(decibels, loudest) {
        var n :| 0 <= n < |heights| && heights[n] == loudest;
        assert moment.steps[n] == 0;
        assert decibels.amplitude(DecibelsOf(code)) < decibels.amplitude(decibels.of(loudest));
      } else {
        forall n | 0 <= n < |heights| ensures heights[n] <= HeightsCoded(decibels, moment)[n] {
          if heights[n] > 0.0 {
            decibels.NoQuieter(heights[n], loudest);
            CodedHeight(decibels, code, heights[n]);
          }
        }
      }
    }
  }

  // ---------------------------------------------------------------- covering

  /** No node higher. */
  ghost predicate Under(heights: Heights, moment: Heights) {
    |heights| == |moment| && forall n | 0 <= n < |heights| :: heights[n] <= moment[n]
  }

  ghost predicate UnderOne(heights: Heights, moments: seq<Heights>) {
    exists k | 0 <= k < |moments| :: Under(heights, moments[k])
  }

  ghost predicate Between(heights: Heights, most: real) {
    forall n | 0 <= n < |heights| :: 0.0 <= heights[n] <= most
  }

  ghost predicate BetweenAll(heights: seq<Heights>, most: real) {
    forall k | 0 <= k < |heights| :: Between(heights[k], most)
  }

  /** A moment that is given up for a louder one, or kept beside another, covers what it did. */
  lemma UnderLouder(heights: Heights, moments: seq<Heights>, index: nat, more: Heights)
    requires index < |moments| && Alike(moments, |more|) && UnderOne(heights, moments)
    ensures UnderOne(heights, moments[index := Louder(moments[index], more)])
  {
    var k :| 0 <= k < |moments| && Under(heights, moments[k]);
    assert Under(heights, moments[index := Louder(moments[index], more)][k]);
  }

  // ---------------------------------------------------------------- reaching each tile's neighbours

  function LoudestFrom(tiles: seq<Heights>, width: nat, from: nat, to: nat): (loudest: Heights)
    requires from <= to <= |tiles| && Alike(tiles, width)
    ensures |loudest| == width
    decreases if from <= to then to - from else 0
  {
    if to == from then Silence(width) else Louder(LoudestFrom(tiles, width, from, to - 1), tiles[to - 1])
  }

  lemma {:induction false} LoudestHolds(tiles: seq<Heights>, width: nat, from: nat, to: nat, most: real)
    requires from <= to <= |tiles| && Alike(tiles, width)
    ensures forall t | from <= t < to :: Under(tiles[t], LoudestFrom(tiles, width, from, to))
    ensures most >= 0.0 && (forall t | from <= t < to :: Between(tiles[t], most)) ==>
      Between(LoudestFrom(tiles, width, from, to), most)
    decreases if from <= to then to - from else 0
  {
    if from < to {
      LoudestHolds(tiles, width, from, to - 1, most);
    }
  }

  function ReachFrom(tile: nat): nat {
    if tile < TILES_REACHED_EACH_WAY then 0 else tile - TILES_REACHED_EACH_WAY
  }

  function ReachTo(tile: nat, tiles: nat): nat {
    if tile + TILES_REACHED_EACH_WAY + 1 < tiles then tile + TILES_REACHED_EACH_WAY + 1 else tiles
  }

  function Reaching(tiles: seq<Heights>, width: nat): (reached: seq<Heights>)
    requires Alike(tiles, width)
    ensures |reached| == |tiles| && Alike(reached, width)
    ensures forall t | 0 <= t < |tiles| :: reached[t] == LoudestFrom(tiles, width, ReachFrom(t), ReachTo(t, |tiles|))
  {
    seq(|tiles|, t requires 0 <= t < |tiles| => LoudestFrom(tiles, width, ReachFrom(t), ReachTo(t, |tiles|)))
  }

  /** Each tile with its neighbours each way is under what it reaches. */
  lemma ReachingHolds(tiles: seq<Heights>, width: nat, most: real)
    requires Alike(tiles, width) && most >= 0.0 && BetweenAll(tiles, most)
    ensures BetweenAll(Reaching(tiles, width), most)
    ensures forall t, u | 0 <= t < |tiles| && ReachFrom(t) <= u < ReachTo(t, |tiles|) ::
      Under(tiles[u], Reaching(tiles, width)[t])
  {
    forall t | 0 <= t < |tiles|
      ensures Between(Reaching(tiles, width)[t], most)
      ensures forall u | ReachFrom(t) <= u < ReachTo(t, |tiles|) :: Under(tiles[u], Reaching(tiles, width)[t])
    {
      LoudestHolds(tiles, width, ReachFrom(t), ReachTo(t, |tiles|), most);
    }
  }

  // ---------------------------------------------------------------- gathering

  /** How far a moment would have to be raised to cover a tile, node for node, weighed by how
      loud the tile is. */
  function RaisedUpto(heights: Heights, moment: Heights, floor: real, upto: nat): (raised: real)
    requires |heights| == |moment| && upto <= |heights| && floor > 0.0
    ensures raised >= 0.0
  {
    if upto == 0 then 0.0
    else
      var n := upto - 1;
      Max(RaisedUpto(heights, moment, floor, n), Max(heights[n] - moment[n], 0.0) / Max(moment[n], floor))
  }

  function RaisedBy(heights: Heights, moment: Heights, loudest: real, floor: real): (raised: real)
    requires |heights| == |moment| > 0 && floor > 0.0 && loudest > 0.0
  {
    WeighedBy(RaisedUpto(heights, moment, floor, |heights|), heights[WHOLE], loudest)
  }

  function WeighedBy(raised: real, height: real, loudest: real): real
    requires loudest > 0.0
  {
    raised * height / loudest
  }

  lemma {:induction false} RaisedAtMost(heights: Heights, moment: Heights, loudest: real, floor: real, upto: nat)
    requires |heights| == |moment| && upto <= |heights| && loudest > 0.0 && floor == loudest * QUIETEST_WEIGHED
    requires Between(heights, 10.0 * loudest) && forall n | 0 <= n < |moment| :: moment[n] >= 0.0
    ensures RaisedUpto(heights, moment, floor, upto) <= WIDEST_TOLERANCE
  {
    if upto > 0 {
      var n := upto - 1;
      RaisedAtMost(heights, moment, loudest, floor, n);
      RatioAtMost(Max(heights[n] - moment[n], 0.0), Max(moment[n], floor), loudest, floor);
    }
  }

  lemma RatioAtMost(more: real, held: real, loudest: real, floor: real)
    requires loudest > 0.0 && floor == loudest * QUIETEST_WEIGHED && held >= floor && 0.0 <= more <= 10.0 * loudest
    ensures more / held <= WIDEST_TOLERANCE
  {
    assert more <= WIDEST_TOLERANCE * floor;
    assert WIDEST_TOLERANCE * floor <= WIDEST_TOLERANCE * held;
    QuotientAtMost(more, held, WIDEST_TOLERANCE);
  }

  lemma QuotientAtMost(more: real, held: real, most: real)
    requires held > 0.0 && more <= most * held
    ensures more / held <= most
  {
    var quotient := more / held;
    assert quotient * held == more;
    if quotient > most {
      Steeper(quotient, most, held);
    }
  }

  lemma Steeper(quotient: real, most: real, held: real)
    requires quotient > most && held > 0.0
    ensures quotient * held > most * held
  {
  }

  lemma RaisedWithin(heights: Heights, moment: Heights, loudest: real, floor: real)
    requires |heights| == |moment| > 0 && loudest > 0.0 && floor == loudest * QUIETEST_WEIGHED && floor > 0.0
    requires Between(heights, 10.0 * loudest) && heights[WHOLE] <= loudest
    requires forall n | 0 <= n < |moment| :: moment[n] >= 0.0
    ensures RaisedBy(heights, moment, loudest, floor) <= WIDEST_TOLERANCE
  {
    RaisedAtMost(heights, moment, loudest, floor, |heights|);
    WeighedDown(RaisedUpto(heights, moment, floor, |heights|), heights[WHOLE], loudest);
  }

  lemma WeighedDown(raised: real, height: real, loudest: real)
    requires raised >= 0.0 && 0.0 <= height <= loudest && loudest > 0.0
    ensures WeighedBy(raised, height, loudest) <= raised
  {
    Weighed(raised, height, loudest);
    QuotientAtMost(raised * height, loudest, raised);
  }

  /** What every tile gathered so far comes to: a moment at most so high covers it. */
  ghost predicate Gathering(
    reached: seq<Heights>, width: nat, order: seq<nat>, upto: nat, moments: seq<Heights>, most: real)
    requires upto <= |order| && forall k | 0 <= k < |order| :: order[k] < |reached|
  {
    && |moments| <= MOMENTS_KEPT && Alike(moments, width) && BetweenAll(moments, most)
    && forall k | 0 <= k < upto :: UnderOne(reached[order[k]], moments)
  }

  /** Which moment a tile would raise the least. */
  method Nearest(heights: Heights, moments: seq<Heights>, loudest: real, floor: real)
      returns (nearest: Option<(nat, real)>)
    requires |heights| > 0 && Alike(moments, |heights|) && floor > 0.0 && loudest > 0.0
    ensures nearest.None? <==> moments == []
    ensures nearest.Some? ==>
      && nearest.value.0 < |moments|
      && nearest.value.1 == RaisedBy(heights, moments[nearest.value.0], loudest, floor)
      && forall k | 0 <= k < |moments| :: nearest.value.1 <= RaisedBy(heights, moments[k], loudest, floor)
  {
    nearest := None;
    for index := 0 to |moments|
      invariant nearest.None? <==> index == 0
      invariant nearest.Some? ==>
        && nearest.value.0 < index
        && nearest.value.1 == RaisedBy(heights, moments[nearest.value.0], loudest, floor)
        && forall k | 0 <= k < index :: nearest.value.1 <= RaisedBy(heights, moments[k], loudest, floor)
    {
      var raised := RaisedBy(heights, moments[index], loudest, floor);
      if nearest.None? || raised < nearest.value.1 {
        nearest := Some((index, raised));
      }
    }
  }

  /** The tiles gathered into a few moments, each tile into the moment it raises least where
      that is little enough; nothing where there would be too many. */
  method Gathered(
    reached: seq<Heights>, width: nat, order: seq<nat>, tolerance: real, loudest: real, floor: real, ghost most: real)
    returns (moments: Option<seq<Heights>>)
    requires width > 0 && Alike(reached, width) && BetweenAll(reached, most)
    requires loudest > 0.0 && floor == loudest * QUIETEST_WEIGHED
    requires forall k | 0 <= k < |order| :: order[k] < |reached|
    requires forall k | 0 <= k < |reached| :: reached[k][WHOLE] <= loudest
    ensures moments.Some? ==> Gathering(reached, width, order, |order|, moments.value, most)
    ensures tolerance >= WIDEST_TOLERANCE && most <= 10.0 * loudest ==> moments.Some?
  {
    var held: seq<Heights> := [];
    for k := 0 to |order|
      invariant Gathering(reached, width, order, k, held, most)
    {
      var heights := reached[order[k]];
      var nearest := Nearest(heights, held, loudest, floor);
      ghost var before := held;
      if nearest.Some? && nearest.value.1 <= tolerance {
        var index := nearest.value.0;
        held := held[index := Louder(held[index], heights)];
        GatheredInto(reached, width, order, k, before, most, index);
      } else if |held| < MOMENTS_KEPT {
        held := held + [heights];
        GatheredBeside(reached, width, order, k, before, most);
      } else {
        if most <= 10.0 * loudest {
          RaisedWithin(heights, held[nearest.value.0], loudest, floor);
        }
        return None;
      }
    }
    moments := Some(held);
  }

  lemma GatheredInto(
    reached: seq<Heights>, width: nat, order: seq<nat>, k: nat, moments: seq<Heights>, most: real, index: nat)
    requires k < |order| && (forall j | 0 <= j < |order| :: order[j] < |reached|) && index < |moments|
    requires Alike(reached, width) && BetweenAll(reached, most) && Gathering(reached, width, order, k, moments, most)
    ensures Gathering(reached, width, order, k + 1, moments[index := Louder(moments[index], reached[order[k]])], most)
  {
    var heights := reached[order[k]];
    var next := moments[index := Louder(moments[index], heights)];
    forall j | 0 <= j < k + 1 ensures UnderOne(reached[order[j]], next) {
      if j < k {
        UnderLouder(reached[order[j]], moments, index, heights);
      } else {
        assert Under(heights, next[index]);
      }
    }
  }

  lemma GatheredBeside(reached: seq<Heights>, width: nat, order: seq<nat>, k: nat, moments: seq<Heights>, most: real)
    requires k < |order| && (forall j | 0 <= j < |order| :: order[j] < |reached|) && |moments| < MOMENTS_KEPT
    requires Alike(reached, width) && BetweenAll(reached, most) && Gathering(reached, width, order, k, moments, most)
    ensures Gathering(reached, width, order, k + 1, moments + [reached[order[k]]], most)
  {
    var heights := reached[order[k]];
    var next := moments + [heights];
    forall j | 0 <= j < k + 1 ensures UnderOne(reached[order[j]], next) {
      if j < k {
        var i :| 0 <= i < |moments| && Under(reached[order[j]], moments[i]);
        assert Under(reached[order[j]], next[i]);
      } else {
        assert Under(heights, next[|moments|]);
      }
    }
  }

  // ---------------------------------------------------------------- ordering

  ghost predicate Falling(keys: seq<real>, order: seq<nat>) {
    && (forall k | 0 <= k < |order| :: order[k] < |keys|)
    && forall j, k | 0 <= j < k < |order| :: keys[order[j]] >= keys[order[k]]
  }

  ghost predicate EachOnce(order: seq<nat>, keys: nat) {
    && |order| == keys && (forall k | 0 <= k < |order| :: order[k] < keys)
    && forall key | 0 <= key < keys :: key in order
  }

  /** The keys from the highest to the lowest. */
  method Ordered(keys: seq<real>) returns (order: seq<nat>)
    ensures Falling(keys, order) && EachOnce(order, |keys|)
  {
    order := [];
    for key := 0 to |keys|
      invariant Falling(keys, order) && |order| == key
      invariant forall k | 0 <= k < |order| :: order[k] < key
      invariant forall other | 0 <= other < key :: other in order
    {
      var at: nat := |order|;
      while at > 0 && keys[order[at - 1]] < keys[key]
        invariant at <= |order| && forall k | at <= k < |order| :: keys[order[k]] < keys[key]
      {
        at := at - 1;
      }
      ghost var before := order;
      order := InsertAt(order, at, key);
      Inserted(keys, before, at, key);
    }
  }

  function InsertAt(before: seq<nat>, at: nat, key: nat): (after: seq<nat>)
    requires at <= |before|
    ensures |after| == |before| + 1
    ensures forall k {:trigger after[k]} | 0 <= k < |after| ::
      after[k] == if k < at then before[k] else if k == at then key else before[k - 1]
  {
    before[..at] + [key] + before[at..]
  }

  lemma Inserted(keys: seq<real>, before: seq<nat>, at: nat, key: nat)
    requires Falling(keys, before) && at <= |before| && key < |keys|
    requires forall k | at <= k < |before| :: keys[before[k]] < keys[key]
    requires at > 0 ==> keys[before[at - 1]] >= keys[key]
    ensures Falling(keys, InsertAt(before, at, key))
    ensures key in InsertAt(before, at, key) && forall other | other in before :: other in InsertAt(before, at, key)
  {
    var after := InsertAt(before, at, key);
    assert after[at] == key;
    forall other | other in before ensures other in after {
      var k :| 0 <= k < |before| && before[k] == other;
      assert after[if k < at then k else k + 1] == other;
    }
    forall j, k | 0 <= j < k < |after| ensures keys[after[j]] >= keys[after[k]] {
      if k == at {
        assert j == at - 1 || keys[before[j]] >= keys[before[at - 1]];
      }
    }
  }

  // ---------------------------------------------------------------- grouping

  /** Every tile and its neighbours are still under one of the heights, however many there are. */
  ghost predicate Reached(tiles: seq<Heights>, reached: seq<Heights>) {
    forall t, u | 0 <= t < |tiles| && ReachFrom(t) <= u < ReachTo(t, |tiles|) :: Both(tiles, reached, t, u)
  }

  /** One of the heights covers a tile and another near it both. */
  ghost predicate Both(tiles: seq<Heights>, reached: seq<Heights>, t: nat, u: nat)
    requires t < |tiles| && u < |tiles|
  {
    exists k | 0 <= k < |reached| :: Under(tiles[t], reached[k]) && Under(tiles[u], reached[k])
  }

  lemma StillReached(tiles: seq<Heights>, reached: seq<Heights>, next: seq<Heights>)
    requires Reached(tiles, reached) && forall k | 0 <= k < |reached| :: UnderOne(reached[k], next)
    ensures Reached(tiles, next)
  {
    forall t, u | 0 <= t < |tiles| && ReachFrom(t) <= u < ReachTo(t, |tiles|) ensures Both(tiles, next, t, u) {
      assert Both(tiles, reached, t, u);
      var k :| 0 <= k < |reached| && Under(tiles[t], reached[k]) && Under(tiles[u], reached[k]);
      assert UnderOne(reached[k], next);
      var j :| 0 <= j < |next| && Under(reached[k], next[j]);
      assert Under(tiles[t], next[j]) && Under(tiles[u], next[j]);
    }
  }

  lemma PairedHolds(reached: seq<Heights>, width: nat, most: real)
    requires Alike(reached, width) && BetweenAll(reached, most)
    ensures BetweenAll(Paired(reached, width), most)
    ensures forall k | 0 <= k < |reached| :: UnderOne(reached[k], Paired(reached, width))
  {
    var paired := Paired(reached, width);
    forall t | 0 <= t < |paired| ensures Between(paired[t], most) {
      assert paired[t] == PairOf(reached, width, t);
      assert Between(reached[2 * t], most);
      assert 2 * t + 1 < |reached| ==> Between(reached[2 * t + 1], most);
    }
    forall k | 0 <= k < |reached| ensures UnderOne(reached[k], paired) {
      assert paired[k / 2] == PairOf(reached, width, k / 2);
      assert Under(reached[k], paired[k / 2]);
    }
  }

  function Wholes(reached: seq<Heights>, width: nat): (wholes: seq<real>)
    requires width > 0 && Alike(reached, width)
    ensures |wholes| == |reached| && forall k | 0 <= k < |reached| :: wholes[k] == reached[k][WHOLE]
  {
    seq(|reached|, k requires 0 <= k < |reached| => reached[k][WHOLE])
  }

  /** Tiles taken together two by two until there are few enough to gather. */
  method FewEnough(tiles: seq<Heights>, width: nat, ghost most: real) returns (reached: seq<Heights>)
    requires width > 0 && Alike(tiles, width) && most >= 0.0 && BetweenAll(tiles, most)
    ensures Alike(reached, width) && BetweenAll(reached, most) && Reached(tiles, reached)
    ensures |reached| <= GROUPED_FROM_AT_MOST && (tiles == [] <==> reached == [])
    ensures |tiles| <= GROUPED_FROM_AT_MOST ==> reached == Reaching(tiles, width)
  {
    reached := Reaching(tiles, width);
    ReachingHolds(tiles, width, most);
    NearBoth(tiles, width);
    while |reached| > GROUPED_FROM_AT_MOST
      invariant Alike(reached, width) && BetweenAll(reached, most) && Reached(tiles, reached)
      invariant tiles == [] <==> reached == []
      invariant |tiles| <= GROUPED_FROM_AT_MOST ==> reached == Reaching(tiles, width)
      decreases |reached|
    {
      PairedHolds(reached, width, most);
      StillReached(tiles, reached, Paired(reached, width));
      reached := Paired(reached, width);
    }
  }

  lemma NearBoth(tiles: seq<Heights>, width: nat)
    requires Alike(tiles, width)
    ensures Reached(tiles, Reaching(tiles, width))
  {
    var reached := Reaching(tiles, width);
    forall t, u | 0 <= t < |tiles| && ReachFrom(t) <= u < ReachTo(t, |tiles|) ensures Both(tiles, reached, t, u) {
      LoudestHolds(tiles, width, ReachFrom(t), ReachTo(t, |tiles|), 0.0);
      assert Under(tiles[t], reached[t]) && Under(tiles[u], reached[t]);
    }
  }

  /** The narrowest tolerance tried under which the tiles gather into few enough moments. */
  method NarrowestGathered(reached: seq<Heights>, width: nat, loudest: real, ghost most: real)
      returns (best: seq<Heights>)
    requires width > 0 && Alike(reached, width) && BetweenAll(reached, most) && loudest > 0.0
    requires forall k | 0 <= k < |reached| :: reached[k][WHOLE] <= loudest
    ensures |best| <= MOMENTS_KEPT && Alike(best, width) && BetweenAll(best, most)
    ensures most <= 10.0 * loudest ==> forall k | 0 <= k < |reached| :: UnderOne(reached[k], best)
    ensures best != [] ==> forall k | 0 <= k < |reached| :: UnderOne(reached[k], best)
  {
    var order := Ordered(Wholes(reached, width));
    var floor := loudest * QUIETEST_WEIGHED;
    var narrowest, widest := 0.0, WIDEST_TOLERANCE;
    var first := Gathered(reached, width, order, widest, loudest, floor, most);
    best := if first.Some? then first.value else [];
    ghost var gathered := first.Some?;
    for halving := 0 to TOLERANCE_HALVINGS
      invariant |best| <= MOMENTS_KEPT && Alike(best, width) && BetweenAll(best, most)
      invariant gathered ==> Gathering(reached, width, order, |order|, best, most)
      invariant (most <= 10.0 * loudest ==> gathered) && (best != [] ==> gathered)
    {
      var tolerance := (narrowest + widest) / 2.0;
      var moments := Gathered(reached, width, order, tolerance, loudest, floor, most);
      if moments.Some? {
        widest, best, gathered := tolerance, moments.value, true;
      } else {
        narrowest := tolerance;
      }
    }
    if gathered {
      AllGathered(reached, width, order, best, most);
    }
  }

  lemma AllGathered(reached: seq<Heights>, width: nat, order: seq<nat>, best: seq<Heights>, most: real)
    requires EachOnce(order, |reached|) && Gathering(reached, width, order, |order|, best, most)
    ensures forall k | 0 <= k < |reached| :: UnderOne(reached[k], best)
  {
    forall k | 0 <= k < |reached| ensures UnderOne(reached[k], best) {
      assert k in order;
      var j :| 0 <= j < |order| && order[j] == k;
      assert UnderOne(reached[order[j]], best);
    }
  }

  /** Nothing is kept but one moment. */
  ghost predicate OnlyOne(decibels: Decibels, kept: seq<Moment>, heights: Heights, width: nat) {
    forall k | 0 <= k < |kept| :: kept[k] == Coded(decibels, heights) || kept[k] == Silent(width)
  }

  /** The moments coded, the loudest first, in just so many slots. */
  method OfMoments(decibels: Decibels, moments: seq<Heights>, width: nat) returns (kept: seq<Moment>)
    requires |moments| <= MOMENTS_KEPT && Alike(moments, width)
    ensures |kept| == MOMENTS_KEPT && forall k | 0 <= k < |kept| :: |kept[k].steps| == width
    ensures forall k | 0 <= k < |moments| :: Coded(decibels, moments[k]) in kept
    ensures forall j, k | 0 <= j < k < MOMENTS_KEPT :: kept[j].loudest >= kept[k].loudest
    ensures |moments| == 1 ==> OnlyOne(decibels, kept, moments[0], width)
  {
    var coded := CodedEach(decibels, moments, width);
    var order := Ordered(LoudestEach(coded));
    kept := Kept(coded, order, width);
    forall k | 0 <= k < |moments| ensures Coded(decibels, moments[k]) in kept {
      assert k in order;
      var j :| 0 <= j < |order| && order[j] == k;
      assert kept[j] == coded[k];
    }
    forall j, k | 0 <= j < k < MOMENTS_KEPT ensures kept[j].loudest >= kept[k].loudest {
      if k < |order| {
        assert LoudestEach(coded)[order[j]] >= LoudestEach(coded)[order[k]];
      }
    }
  }

  function CodedEach(decibels: Decibels, moments: seq<Heights>, width: nat): (coded: seq<Moment>)
    requires Alike(moments, width)
    ensures |coded| == |moments|
    ensures forall k | 0 <= k < |moments| :: coded[k] == Coded(decibels, moments[k]) && |coded[k].steps| == width
  {
    seq(|moments|, k requires 0 <= k < |moments| => Coded(decibels, moments[k]))
  }

  function LoudestEach(coded: seq<Moment>): (keys: seq<real>)
    ensures |keys| == |coded| && forall k | 0 <= k < |coded| :: keys[k] == coded[k].loudest as real
  {
    seq(|coded|, k requires 0 <= k < |coded| => coded[k].loudest as real)
  }

  function Kept(coded: seq<Moment>, order: seq<nat>, width: nat): (kept: seq<Moment>)
    requires forall k | 0 <= k < |order| :: order[k] < |coded|
    ensures |kept| == MOMENTS_KEPT
    ensures forall k | 0 <= k < MOMENTS_KEPT :: kept[k] == if k < |order| then coded[order[k]] else Silent(width)
  {
    seq(MOMENTS_KEPT, k requires 0 <= k < MOMENTS_KEPT => if k < |order| then coded[order[k]] else Silent(width))
  }

  /** Every tile, and every tile near it along with it, is under one of the moments as coded. */
  ghost predicate CoveredByCodes(decibels: Decibels, tiles: seq<Heights>, kept: seq<Moment>) {
    forall t, u | 0 <= t < |tiles| && ReachFrom(t) <= u < ReachTo(t, |tiles|) :: CodesBoth(decibels, tiles, kept, t, u)
  }

  ghost predicate CodesBoth(decibels: Decibels, tiles: seq<Heights>, kept: seq<Moment>, t: nat, u: nat)
    requires t < |tiles| && u < |tiles|
  {
    exists k | 0 <= k < |kept| ::
      Under(tiles[t], HeightsCoded(decibels, kept[k])) && Under(tiles[u], HeightsCoded(decibels, kept[k]))
  }

  /** Something is heard of the whole, and no node is more than ten times as high. */
  ghost predicate HeardWhole(tiles: seq<Heights>, width: nat, most: real)
    requires width > 0 && Alike(tiles, width)
  {
    exists t | 0 <= t < |tiles| :: tiles[t][WHOLE] > 0.0 && most <= 10.0 * tiles[t][WHOLE]
  }

  ghost predicate SilentWhole(tiles: seq<Heights>, width: nat)
    requires width > 0 && Alike(tiles, width)
  {
    forall t | 0 <= t < |tiles| :: tiles[t][WHOLE] <= 0.0
  }

  lemma ReachedSilent(tiles: seq<Heights>, width: nat)
    requires width > 0 && Alike(tiles, width) && SilentWhole(tiles, width)
    ensures LoudestOfAll(Wholes(Reaching(tiles, width), width)) <= 0.0
  {
    var reached := Reaching(tiles, width);
    forall t | 0 <= t < |reached| ensures reached[t][WHOLE] <= 0.0 {
      SilentFrom(tiles, width, ReachFrom(t), ReachTo(t, |tiles|));
    }
  }

  lemma {:induction false} SilentFrom(tiles: seq<Heights>, width: nat, from: nat, end: nat)
    requires width > 0 && Alike(tiles, width) && SilentWhole(tiles, width) && from <= end <= |tiles|
    ensures LoudestFrom(tiles, width, from, end)[WHOLE] <= 0.0
    decreases end - from
  {
    if from < end {
      SilentFrom(tiles, width, from, end - 1);
    }
  }

  /** Where nothing is heard of the whole all but the first tile's reach is given up: a tile past
      it in which another node is heard is then louder than all that is kept. */
  lemma SilentWholeMisses(decibels: Decibels, height: real, kept: seq<Moment>) returns (tiles: seq<Heights>)
    requires decibels.Lawful() && height > 0.0
    ensures Alike(tiles, 2) && SilentWhole(tiles, 2) && BetweenAll(tiles, height) && 0 < |tiles| <= GROUPED_FROM_AT_MOST
    ensures OnlyOne(decibels, kept, Reaching(tiles, 2)[0], 2) ==> !CoveredByCodes(decibels, tiles, kept)
  {
    var nothing: Heights := [0.0, 0.0];
    tiles := [nothing, nothing, nothing, [0.0, height]];
    var first := Reaching(tiles, 2)[0];
    assert first == LoudestFrom(tiles, 2, 0, 3);
    NothingFrom(tiles, 3);
    assert Coded(decibels, first) == Silent(2);
    assert ReachFrom(3) <= 3 < ReachTo(3, |tiles|);
    if OnlyOne(decibels, kept, first, 2) {
      forall k | 0 <= k < |kept| ensures !Under(tiles[3], HeightsCoded(decibels, kept[k])) {
        assert HeightsCoded(decibels, Silent(2))[1] == 0.0 < tiles[3][1];
      }
      assert !CodesBoth(decibels, tiles, kept, 3, 3);
    }
  }

  lemma {:induction false} NothingFrom(tiles: seq<Heights>, end: nat)
    requires Alike(tiles, 2) && end <= |tiles| && forall t | 0 <= t < end :: tiles[t] == [0.0, 0.0]
    ensures LoudestOfAll(LoudestFrom(tiles, 2, 0, end)) == 0.0
    decreases end
  {
    if end > 0 {
      NothingFrom(tiles, end - 1);
    }
  }

  /** The tiles grouped into a few moments. Where something is heard of the whole, and no node
      is more than ten times as high as it or past every code, none of them is louder than the
      moments as coded. */
  method Grouped(decibels: Decibels, tiles: seq<Heights>, width: nat, ghost most: real) returns (kept: seq<Moment>)
    requires decibels.Lawful() && width > 0 && Alike(tiles, width) && most >= 0.0 && BetweenAll(tiles, most)
    ensures |kept| == MOMENTS_KEPT && forall k | 0 <= k < |kept| :: |kept[k].steps| == width
    ensures HeardWhole(tiles, width, most) && !PastEveryCode(decibels, most) ==> CoveredByCodes(decibels, tiles, kept)
    ensures 0 < |tiles| <= GROUPED_FROM_AT_MOST && SilentWhole(tiles, width)
      ==> OnlyOne(decibels, kept, Reaching(tiles, width)[0], width)
  {
    var reached := FewEnough(tiles, width, most);
    var loudest := LoudestOfAll(Wholes(reached, width));
    WholesReached(tiles, reached, width);
    if 0 < |tiles| <= GROUPED_FROM_AT_MOST && SilentWhole(tiles, width) {
      ReachedSilent(tiles, width);
    }
    if loudest <= 0.0 {
      var first := if |reached| > 0 then [reached[0]] else [];
      kept := OfMoments(decibels, first, width);
    } else {
      var best := NarrowestGathered(reached, width, loudest, most);
      kept := OfMoments(decibels, best, width);
      if most <= 10.0 * loudest && !PastEveryCode(decibels, most) {
        StillReached(tiles, reached, best);
        CodesReach(decibels, tiles, best, kept, most);
      }
    }
  }

  /** The loudest whole that is reached is at least that of any tile. */
  lemma WholesReached(tiles: seq<Heights>, reached: seq<Heights>, width: nat)
    requires width > 0 && Alike(tiles, width) && Alike(reached, width) && Reached(tiles, reached)
    ensures forall t | 0 <= t < |tiles| :: tiles[t][WHOLE] <= LoudestOfAll(Wholes(reached, width))
  {
    forall t | 0 <= t < |tiles| ensures tiles[t][WHOLE] <= LoudestOfAll(Wholes(reached, width)) {
      assert Both(tiles, reached, t, t);
      var k :| 0 <= k < |reached| && Under(tiles[t], reached[k]);
      assert Wholes(reached, width)[k] == reached[k][WHOLE];
    }
  }

  lemma CodesReach(decibels: Decibels, tiles: seq<Heights>, best: seq<Heights>, kept: seq<Moment>, most: real)
    requires decibels.Lawful() && Reached(tiles, best) && BetweenAll(best, most) && !PastEveryCode(decibels, most)
    requires forall k | 0 <= k < |best| :: Coded(decibels, best[k]) in kept
    ensures CoveredByCodes(decibels, tiles, kept)
  {
    forall t, u | 0 <= t < |tiles| && ReachFrom(t) <= u < ReachTo(t, |tiles|)
      ensures CodesBoth(decibels, tiles, kept, t, u) {
      assert Both(tiles, best, t, u);
      var k :| 0 <= k < |best| && Under(tiles[t], best[k]) && Under(tiles[u], best[k]);
      CodedCovers(decibels, best[k]);
      NotPast(decibels, best[k], most);
      var j :| 0 <= j < |kept| && kept[j] == Coded(decibels, best[k]);
      assert Under(tiles[t], HeightsCoded(decibels, kept[j])) && Under(tiles[u], HeightsCoded(decibels, kept[j]));
    }
  }

  lemma NotPast(decibels: Decibels, heights: Heights, most: real)
    requires decibels.Lawful() && Between(heights, most) && !PastEveryCode(decibels, most)
    ensures !PastEveryCode(decibels, LoudestOfAll(heights))
  {
    var loudest := LoudestOfAll(heights);
    if loudest > 0.0 {
      decibels.NoQuieter(loudest, most);
    }
  }
}
