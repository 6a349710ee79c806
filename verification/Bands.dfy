/** The bound on how loud a stream may get through a response, from its loudest moments: the
    cheapest cover of its bands, and where that is not enough the linear programme of each of
    the response's anchors. */
module Bands {
  import opened Vectors
  import opened Wrappers
  import opened Tiling
  import opened Trees
  import opened Tones
  import opened Simplex
  import opened Peaks

  const HINTS_KEPT: nat := 4

  /** A level of the response held apart, what of it reaches each node, and what of it is left
      at each point. */
  datatype Anchor = Anchor(level: real, reach: seq<real>, apart: seq<real>, transient: real)

  datatype Hint = Hint(anchor: nat, weights: seq<real>)

  /** What each cover may hold: every node its height, the level the whole's again, and the
      weighings their figures where bands stay together. */
  function PricesOf(heights: Heights, together: Option<seq<real>>, weighings: nat): (prices: seq<real>)
    requires |heights| > 0 && (together.Some? ==> |together.value| == weighings)
    ensures |prices| == |heights| + 1 + weighings
    ensures forall c | 0 <= c < |prices| :: prices[c] == PriceOf(heights, together, weighings, c)
  {
    seq(|heights| + 1 + weighings, c requires 0 <= c < |heights| + 1 + weighings =>
      PriceOf(heights, together, weighings, c))
  }

  function PriceOf(heights: Heights, together: Option<seq<real>>, weighings: nat, cover: nat): (price: real)
    requires |heights| > 0 && (together.Some? ==> |together.value| == weighings) && cover < |heights| + 1 + weighings
    ensures price >= 0.0
  {
    if cover < |heights| then Max(heights[cover], 0.0)
    else if cover == |heights| then Max(heights[Peaks.WHOLE], 0.0)
    else if together.Some? then Max(together.value[cover - |heights| - 1], 0.0)
    else 0.0
  }

  function ForTransient(prices: seq<real>, transient: real): (at: seq<real>)
    requires |prices| > 0
    ensures |at| == |prices|
  {
    PricedFor(prices, prices[Peaks.WHOLE], transient)
  }

  /** The response a bound is asked of. */
  datatype Gains = Gains(
    tree: seq<Node>, bands: nat, weighings: nat, anchors: seq<Anchor>, ringing: seq<real>, tones: Tones,
    staysTogether: bool)
  {
    ghost predicate Valid() {
      && bands > 0 && Trees.Rooted(tree, 0, 0, bands) && |tree| == Slots(0, bands)
      && |ringing| == |tree| && (forall n | 0 <= n < |ringing| :: ringing[n] >= 0.0)
      && tones.Valid() && tones.covers == |tree| + 1 + weighings
      && |anchors| > 0 && forall a | 0 <= a < |anchors| :: Fits(anchors[a])
    }

    ghost predicate Fits(anchor: Anchor)
      requires tones.Valid()
    {
      |anchor.reach| == |tree| && |anchor.apart| == tones.Points() && anchor.transient > 0.0
    }

    ghost function Covering(anchor: Anchor, heights: Heights): real
      requires Valid() && Fits(anchor) && |heights| == |tree|
    {
      Abs(anchor.level) * heights[Peaks.WHOLE] + Cheapest(tree, Owns(anchor.reach, heights), 0, 0, bands)
    }

    ghost function Ring(heights: Heights): real
      requires Valid() && |heights| == |tree|
    {
      Cheapest(tree, Owns(ringing, heights), 0, 0, bands)
    }

    /** What no anchor's cover and no bound on any anchor's programme is under. */
    ghost predicate UnderEvery(heights: Heights, together: Option<seq<real>>, sounds: real)
      requires Valid() && |heights| == |tree| && (together.Some? ==> |together.value| == weighings)
    {
      forall a | 0 <= a < |anchors| :: UnderAnchor(anchors[a], heights, together, sounds)
    }

    ghost predicate UnderAnchor(anchor: Anchor, heights: Heights, together: Option<seq<real>>, sounds: real)
      requires Valid() && Fits(anchor) && |heights| == |tree| && (together.Some? ==> |together.value| == weighings)
    {
      && sounds <= Covering(anchor, heights)
      && forall bound |
           tones.Bounds(ForTransient(PricesOf(heights, together, weighings), anchor.transient), anchor.apart, bound) ::
           sounds <= bound
    }

    /** At least everything that is under every anchor. */
    ghost predicate Over(heights: Heights, together: Option<seq<real>>, bound: real)
      requires Valid() && |heights| == |tree| && (together.Some? ==> |together.value| == weighings)
    {
      forall sounds | UnderEvery(heights, together, sounds) :: sounds <= bound
    }

    lemma OneBoundIsOver(a: nat, heights: Heights, together: Option<seq<real>>, bound: real)
      requires Valid() && |heights| == |tree| && (together.Some? ==> |together.value| == weighings) && a < |anchors|
      requires tones.Bounds(
        ForTransient(PricesOf(heights, together, weighings), anchors[a].transient), anchors[a].apart, bound)
      ensures Over(heights, together, bound)
    {
      forall sounds | UnderEvery(heights, together, sounds) ensures sounds <= bound {
        assert UnderAnchor(anchors[a], heights, together, sounds);
      }
    }

    /** The cheapest cover of any anchor. */
    method Partitioned(heights: Heights) returns (partitioned: real)
      requires Valid() && |heights| == |tree|
      ensures forall a | 0 <= a < |anchors| :: partitioned <= Covering(anchors[a], heights)
      ensures exists a | 0 <= a < |anchors| :: partitioned == Covering(anchors[a], heights)
    {
      partitioned := CoveringOf(anchors[0], heights);
      for a := 1 to |anchors|
        invariant forall b | 0 <= b < a :: partitioned <= Covering(anchors[b], heights)
        invariant exists b | 0 <= b < a :: partitioned == Covering(anchors[b], heights)
      {
        var one := CoveringOf(anchors[a], heights);
        partitioned := Min(partitioned, one);
      }
    }

    method CoveringOf(anchor: Anchor, heights: Heights) returns (covering: real)
      requires Valid() && Fits(anchor) && |heights| == |tree|
      ensures covering == Covering(anchor, heights)
    {
      var cheapest := CheapestOver(tree, anchor.reach, heights, bands);
      covering := Abs(anchor.level) * heights[Peaks.WHOLE] + cheapest;
    }

    lemma PartitionedIsOver(heights: Heights, together: Option<seq<real>>, partitioned: real)
      requires Valid() && |heights| == |tree| && (together.Some? ==> |together.value| == weighings)
      requires exists a | 0 <= a < |anchors| :: partitioned == Covering(anchors[a], heights)
      ensures Over(heights, together, partitioned)
    {
      var a :| 0 <= a < |anchors| && partitioned == Covering(anchors[a], heights);
      forall sounds | UnderEvery(heights, together, sounds) ensures sounds <= partitioned {
        assert UnderAnchor(anchors[a], heights, together, sounds);
      }
    }

    /** The least that weights kept from programmes solved before pay for these prices. */
    method Hinted(hints: seq<Hint>, heights: Heights, together: Option<seq<real>>) returns (hinted: Option<real>)
      requires Valid() && |heights| == |tree| && (together.Some? ==> |together.value| == weighings)
      requires forall k | 0 <= k < |hints| :: |hints[k].weights| == tones.covers
      ensures hinted.Some? ==> Over(heights, together, hinted.value)
    {
      hinted := None;
      for k := 0 to |hints|
        invariant hinted.Some? ==> Over(heights, together, hinted.value)
      {
        var hint := hints[k];
        if hint.anchor < |anchors| {
          var anchor := anchors[hint.anchor];
          var prices := ForTransient(PricesOf(heights, together, weighings), anchor.transient);
          assert Fits(anchor);
          var paid := PaidBy(tones, hint.weights, prices, anchor.apart);
          if paid.Some? {
            OneBoundIsOver(hint.anchor, heights, together, paid.value);
            hinted := Some(if hinted.Some? then Min(hinted.value, paid.value) else paid.value);
          }
        }
      }
    }
  }

  // ---------------------------------------------------------------- solving each anchor

  /** The anchors from the one a tone alone is heard least against to the one it is most. */
  function AloneKeys(alone: seq<Option<real>>): (keys: seq<real>)
    ensures |keys| == |alone|
  {
    seq(|alone|, a requires 0 <= a < |alone| => -(if alone[a].Some? then alone[a].value else AloneMost(alone) + 1.0))
  }

  function AloneMost(alone: seq<Option<real>>): real {
    if alone == [] then 0.0
    else
      var last := alone[|alone| - 1];
      Max(AloneMost(alone[..|alone| - 1]), if last.Some? then last.value else 0.0)
  }

  /** The programme is one of these prices, whatever the first of them has come to be. */
  ghost predicate SolvingOf(gains: Gains, solving: Solving, prices: seq<real>)
    requires gains.Valid()
    reads solving
  {
    && solving.Valid() && solving.tones == gains.tones && |prices| == gains.tones.covers
    && solving.whole == prices[Peaks.WHOLE]
    && forall c | 0 <= c < |prices| && c != Peaks.WHOLE :: solving.prices[c] == prices[c]
  }

  lemma PricesAlike(gains: Gains, solving: Solving, prices: seq<real>, transient: real)
    requires gains.Valid() && SolvingOf(gains, solving, prices)
    ensures solving.PricesAt(transient) == ForTransient(prices, transient)
  {
    PricedAlike(solving.prices, prices, solving.whole, transient);
  }

  /** How loud a tone alone may be against each anchor. */
  method HeardAloneEach(gains: Gains, solving: Solving, prices: seq<real>, heights: Heights)
    returns (alone: seq<Option<real>>, levels: seq<real>)
    requires gains.Valid() && SolvingOf(gains, solving, prices) && |heights| == |gains.tree|
    ensures |alone| == |levels| == |gains.anchors|
  {
    alone, levels := [], [];
    for a := 0 to |gains.anchors|
      invariant |alone| == |levels| == a
    {
      var anchor := gains.anchors[a];
      assert gains.Fits(anchor);
      var heard := solving.HeardAlone(anchor.apart, anchor.transient);
      alone := alone + [heard];
      levels := levels + [Abs(anchor.level) * heights[Peaks.WHOLE]];
    }
  }

  class Hints {
    var held: seq<Hint>

    ghost predicate Valid(covers: nat)
      reads this
    {
      |held| <= HINTS_KEPT && forall k | 0 <= k < |held| :: |held[k].weights| == covers
    }

    constructor ()
      ensures forall covers :: Valid(covers)
    {
      held := [];
    }

    /** The latest first, the oldest given up for it where there are as many as are kept. */
    method Keep(hint: Hint)
      requires Valid(|hint.weights|)
      modifies this
      ensures Valid(|hint.weights|)
      ensures held == [hint] + old(held[..if |held| < HINTS_KEPT then |held| else HINTS_KEPT - 1])
    {
      if |held| >= HINTS_KEPT {
        held := held[..|held| - 1];
      }
      held := [hint] + held;
    }
  }

  /** The least bound of any anchor's programme, none of them followed further than it takes to
      be no better than the least so far. */
  method Solved(
    gains: Gains, hints: Hints, heights: Heights, together: Option<seq<real>>, partitioned: real, floor: real)
    returns (least: real)
    requires gains.Valid() && |heights| == |gains.tree| && hints.Valid(gains.tones.covers)
    requires together.Some? ==> |together.value| == gains.weighings
    requires gains.Over(heights, together, partitioned)
    modifies hints
    ensures hints.Valid(gains.tones.covers)
    ensures gains.Over(heights, together, least) && least <= partitioned
  {
    var prices := PricesOf(heights, together, gains.weighings);
    var solving := new Solving.Over(gains.tones, prices);
    assert SolvingOf(gains, solving, prices);
    var alone, levels := HeardAloneEach(gains, solving, prices, heights);
    var order := Ordered(AloneKeys(Summed(alone, levels)));
    least := partitioned;
    var solvedBy: Option<Hint> := None;
    for k := 0 to |order|
      invariant SolvingOf(gains, solving, prices) && fresh(solving) && hints.held == old(hints.held)
      invariant gains.Over(heights, together, least) && least <= partitioned
      invariant solvedBy.Some? ==> |solvedBy.value.weights| == gains.tones.covers
    {
      var a := order[k];
      var skipped := SkippedAt(alone[a], levels[a], together.Some?, least);
      if least > floor && !skipped {
        var paid := BoundOf(gains, solving, prices, heights, together, a, least, floor);
        if paid.Some? && paid.value.paid < least {
          least := paid.value.paid;
          solvedBy := Some(Hint(a, paid.value.weights));
        }
      }
    }
    if solvedBy.Some? {
      hints.Keep(solvedBy.value);
    }
  }

  function Summed(alone: seq<Option<real>>, levels: seq<real>): (summed: seq<Option<real>>)
    requires |alone| == |levels|
    ensures |summed| == |alone|
  {
    seq(|alone|, a requires 0 <= a < |alone| => if alone[a].Some? then Some(levels[a] + alone[a].value) else None)
  }

  /** An anchor no better than the least so far, by what a tone alone is heard at. */
  predicate SkippedAt(alone: Option<real>, level: real, together: bool, least: real) {
    alone.None? || (if together then alone.value else level + alone.value) >= least
  }

  method BoundOf(
    gains: Gains, solving: Solving, prices: seq<real>, heights: Heights, together: Option<seq<real>>, a: nat,
    least: real, floor: real)
    returns (paid: Option<Paid>)
    requires gains.Valid() && |heights| == |gains.tree| && a < |gains.anchors|
    requires together.Some? ==> |together.value| == gains.weighings
    requires prices == PricesOf(heights, together, gains.weighings) && SolvingOf(gains, solving, prices)
    modifies solving
    ensures SolvingOf(gains, solving, prices)
    ensures paid.Some? ==> gains.Over(heights, together, paid.value.paid) && |paid.value.weights| == gains.tones.covers
  {
    var anchor := gains.anchors[a];
    assert gains.Fits(anchor);
    PricesAlike(gains, solving, prices, anchor.transient);
    var found, _, _, _, _ := solving.Bound(anchor.apart, anchor.transient, least, floor);
    paid := found;
    if paid.Some? {
      gains.OneBoundIsOver(a, heights, together, paid.value.paid);
    }
  }

  // ---------------------------------------------------------------- beside the loudest yet

  /** The loudest of each node over all the moments. */
  function WholeOf(moments: seq<Heights>, width: nat): (whole: Heights)
    requires Alike(moments, width)
    ensures |whole| == width
  {
    LoudestFrom(moments, width, 0, |moments|)
  }

  function TogetherOf(gains: Gains, figures: Option<seq<real>>): (together: Option<seq<real>>) {
    if gains.staysTogether then figures else None
  }

  /** At least everything under every anchor at any of the moments. */
  ghost predicate OverAll(gains: Gains, moments: seq<Heights>, together: Option<seq<real>>, bound: real)
    requires gains.Valid() && Alike(moments, |gains.tree|)
    requires together.Some? ==> |together.value| == gains.weighings
  {
    forall m | 0 <= m < |moments| :: gains.Over(moments[m], together, bound)
  }

  /** How loud the moments may get through the response: no moment's sound, its ring with it,
      is over both this and the loudest of the others yet. */
  method BoundBeside(gains: Gains, hints: Hints, moments: seq<Heights>, figures: Option<seq<real>>, loudestYet: real)
    returns (bound: real)
    requires gains.Valid() && hints.Valid(gains.tones.covers) && Alike(moments, |gains.tree|)
    requires figures.Some? ==> |figures.value| == gains.weighings
    modifies hints
    ensures hints.Valid(gains.tones.covers)
    ensures OverAll(gains, moments, TogetherOf(gains, figures),
      Max(loudestYet, bound) - gains.Ring(WholeOf(moments, |gains.tree|)))
  {
    var whole := WholeOf(moments, |gains.tree|);
    var ring := CheapestOver(gains.tree, gains.ringing, whole, gains.bands);
    var held := HeldOver(gains, hints, moments, TogetherOf(gains, figures), loudestYet, loudestYet - ring);
    bound := held + ring;
    OverMore(gains, moments, TogetherOf(gains, figures), Max(held, loudestYet - ring), Max(loudestYet, bound) - ring);
  }

  lemma OverMore(gains: Gains, moments: seq<Heights>, together: Option<seq<real>>, bound: real, more: real)
    requires gains.Valid() && Alike(moments, |gains.tree|) && bound <= more
    requires together.Some? ==> |together.value| == gains.weighings
    requires OverAll(gains, moments, together, bound)
    ensures OverAll(gains, moments, together, more)
  {
    forall m | 0 <= m < |moments| ensures gains.Over(moments[m], together, more) {
      assert gains.Over(moments[m], together, bound);
    }
  }

  /** The loudest of the moments' bounds, no moment bounded that is under the floor already. */
  method HeldOver(
    gains: Gains, hints: Hints, moments: seq<Heights>, together: Option<seq<real>>, loudestYet: real, floor: real)
    returns (held: real)
    requires gains.Valid() && hints.Valid(gains.tones.covers) && Alike(moments, |gains.tree|)
    requires together.Some? ==> |together.value| == gains.weighings
    modifies hints
    ensures hints.Valid(gains.tones.covers)
    ensures OverAll(gains, moments, together, Max(held, floor))
  {
    var partitioned := PartitionedEach(gains, moments);
    var order := Ordered(partitioned);
    held := 0.0;
    var k := 0;
    while k < |order|
      invariant k <= |order| && hints.Valid(gains.tones.covers)
      invariant OverUpto(gains, moments, order, together, k, Max(held, floor))
    {
      var heights, most := moments[order[k]], partitioned[order[k]];
      assert OfSomeAnchor(gains, heights, most);
      gains.PartitionedIsOver(heights, together, most);
      ghost var before := Max(held, floor);
      if most <= Max(held, floor) {
        held := Max(held, most);
        RestAreUnder(gains, moments, partitioned, order, together, k, before);
        break;
      }
      var better := HeightsBound(gains, hints, heights, together, most, Max(held, floor), loudestYet > 0.0);
      held := if better.Some? then Max(held, better.value) else held;
      OneMoreOver(gains, moments, order, together, k, before, Max(held, floor));
      k := k + 1;
    }
    EveryMoment(gains, moments, order, together, Max(held, floor));
  }

  ghost predicate OverUpto(
    gains: Gains, moments: seq<Heights>, order: seq<nat>, together: Option<seq<real>>, upto: nat, bound: real)
    requires gains.Valid() && Alike(moments, |gains.tree|) && upto <= |order|
    requires together.Some? ==> |together.value| == gains.weighings
    requires forall j | 0 <= j < |order| :: order[j] < |moments|
  {
    forall j | 0 <= j < upto :: gains.Over(moments[order[j]], together, bound)
  }

  lemma OneMoreOver(
    gains: Gains, moments: seq<Heights>, order: seq<nat>, together: Option<seq<real>>, k: nat, before: real,
    after: real)
    requires gains.Valid() && Alike(moments, |gains.tree|) && k < |order| && before <= after
    requires together.Some? ==> |together.value| == gains.weighings
    requires forall j | 0 <= j < |order| :: order[j] < |moments|
    requires OverUpto(gains, moments, order, together, k, before)
    requires gains.Over(moments[order[k]], together, after)
    ensures OverUpto(gains, moments, order, together, k + 1, after)
  {
    forall j | 0 <= j < k + 1 ensures gains.Over(moments[order[j]], together, after) {
      if j < k {
        assert gains.Over(moments[order[j]], together, before);
      }
    }
  }

  method PartitionedEach(gains: Gains, moments: seq<Heights>) returns (partitioned: seq<real>)
    requires gains.Valid() && Alike(moments, |gains.tree|)
    ensures |partitioned| == |moments|
    ensures forall m | 0 <= m < |moments| :: OfSomeAnchor(gains, moments[m], partitioned[m])
  {
    partitioned := [];
    for m := 0 to |moments|
      invariant |partitioned| == m && forall l | 0 <= l < m :: OfSomeAnchor(gains, moments[l], partitioned[l])
    {
      var one := gains.Partitioned(moments[m]);
      partitioned := partitioned + [one];
    }
  }

  ghost predicate OfSomeAnchor(gains: Gains, heights: Heights, partitioned: real)
    requires gains.Valid() && |heights| == |gains.tree|
  {
    exists a | 0 <= a < |gains.anchors| :: partitioned == gains.Covering(gains.anchors[a], heights)
  }

  /** One moment's bound: what hints pay for it where that is no more than what is held already,
      and otherwise what its programmes come to. */
  method HeightsBound(
    gains: Gains, hints: Hints, heights: Heights, together: Option<seq<real>>, partitioned: real, floor: real,
    hinting: bool)
    returns (better: Option<real>)
    requires gains.Valid() && hints.Valid(gains.tones.covers) && |heights| == |gains.tree|
    requires together.Some? ==> |together.value| == gains.weighings
    requires gains.Over(heights, together, partitioned)
    modifies hints
    ensures hints.Valid(gains.tones.covers)
    ensures gains.Over(heights, together, if better.Some? then better.value else floor)
  {
    if hinting {
      var hinted := gains.Hinted(hints.held, heights, together);
      if hinted.Some? && hinted.value <= floor {
        return None;
      }
    }
    var solved := Solved(gains, hints, heights, together, partitioned, floor);
    better := Some(solved);
  }

  /** Once a moment's cover is no more than what is held, so is that of every moment ranked
      after it. */
  lemma RestAreUnder(
    gains: Gains, moments: seq<Heights>, partitioned: seq<real>, order: seq<nat>, together: Option<seq<real>>, k: nat,
    bound: real)
    requires gains.Valid() && Alike(moments, |gains.tree|) && |partitioned| == |moments|
    requires together.Some? ==> |together.value| == gains.weighings
    requires forall m | 0 <= m < |moments| :: OfSomeAnchor(gains, moments[m], partitioned[m])
    requires Falling(partitioned, order) && k < |order| && partitioned[order[k]] <= bound
    requires OverUpto(gains, moments, order, together, k, bound)
    ensures OverUpto(gains, moments, order, together, |order|, bound)
  {
    forall j | k <= j < |order| ensures gains.Over(moments[order[j]], together, bound) {
      assert OfSomeAnchor(gains, moments[order[j]], partitioned[order[j]]);
      gains.PartitionedIsOver(moments[order[j]], together, partitioned[order[j]]);
      assert j == k || partitioned[order[k]] >= partitioned[order[j]];
    }
  }

  lemma EveryMoment(gains: Gains, moments: seq<Heights>, order: seq<nat>, together: Option<seq<real>>, bound: real)
    requires gains.Valid() && Alike(moments, |gains.tree|) && EachOnce(order, |moments|)
    requires together.Some? ==> |together.value| == gains.weighings
    requires OverUpto(gains, moments, order, together, |order|, bound)
    ensures OverAll(gains, moments, together, bound)
  {
    forall m | 0 <= m < |moments| ensures gains.Over(moments[m], together, bound) {
      assert m in order;
      var j :| 0 <= j < |order| && order[j] == m;
      assert gains.Over(moments[order[j]], together, bound);
    }
  }

  /** The loudest of the streams weighed so far. */
  class Loudest {
    var peak: real
    var measured: nat

    constructor ()
      ensures peak == 0.0 && measured == 0
    {
      peak, measured := 0.0, 0;
    }

    /** One more stream weighed: none of its moments, its ring with it, is over the peak, and
        nothing weighed before is either. */
    method Weigh(gains: Gains, hints: Hints, moments: seq<Heights>, figures: Option<seq<real>>)
      requires gains.Valid() && hints.Valid(gains.tones.covers) && Alike(moments, |gains.tree|)
      requires figures.Some? ==> |figures.value| == gains.weighings
      modifies this, hints
      ensures hints.Valid(gains.tones.covers) && measured == old(measured) + 1 && old(peak) <= peak
      ensures OverAll(gains, moments, TogetherOf(gains, figures), peak - gains.Ring(WholeOf(moments, |gains.tree|)))
    {
      var bound := BoundBeside(gains, hints, moments, figures, peak);
      peak := Max(peak, bound);
      measured := measured + 1;
    }
  }

  /** The ring of all the moments together is at least that of any one of them. */
  lemma RingsAtLeast(gains: Gains, moments: seq<Heights>, m: nat)
    requires gains.Valid() && Alike(moments, |gains.tree|) && m < |moments|
    ensures gains.Ring(moments[m]) <= gains.Ring(WholeOf(moments, |gains.tree|))
  {
    LoudestHolds(moments, |gains.tree|, 0, |moments|, 0.0);
    assert Peaks.Under(moments[m], WholeOf(moments, |gains.tree|));
    CheapestMonotone(gains.tree, gains.ringing, moments[m], WholeOf(moments, |gains.tree|), gains.bands);
  }
}
