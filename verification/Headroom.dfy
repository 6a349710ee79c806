/** How loud the tiles of a stream may get through a response, from the few moments kept of them:
    what bounds a moment bounds whatever tones are held within any tile under it. */
module Headroom {
  import opened Vectors
  import opened Wrappers
  import opened Tiling
  import opened Trees
  import opened Tones
  import opened Peaks
  import opened Bands

  /** A mix of which every cover holds no more than its price, one without a price nothing. */
  ghost predicate Within(tones: Tones, prices: seq<real>, mix: seq<real>)
    requires tones.Valid() && |prices| == tones.covers
  {
    && |mix| == tones.Points() && (forall p | 0 <= p < |mix| :: mix[p] >= 0.0)
    && forall c | 0 <= c < tones.covers :: tones.Held(mix)[c] <= prices[c]
  }

  ghost predicate BoundsWithin(tones: Tones, prices: seq<real>, apart: seq<real>, bound: real)
    requires tones.Valid() && |prices| == tones.covers && |apart| == tones.Points()
  {
    forall mix | Within(tones, prices, mix) :: tones.Sounding(apart, mix) <= bound
  }

  /** What tones held within the heights can sound like: no more than any anchor's cover of them,
      nor than anything that no mix within them passes. */
  ghost predicate Sounds(gains: Gains, heights: Heights, together: Option<seq<real>>, sounds: real)
    requires gains.Valid() && |heights| == |gains.tree| && (together.Some? ==> |together.value| == gains.weighings)
  {
    forall a | 0 <= a < |gains.anchors| :: SoundsAgainst(gains, gains.anchors[a], heights, together, sounds)
  }

  ghost predicate SoundsAgainst(
    gains: Gains, anchor: Anchor, heights: Heights, together: Option<seq<real>>, sounds: real)
    requires gains.Valid() && gains.Fits(anchor) && |heights| == |gains.tree|
    requires together.Some? ==> |together.value| == gains.weighings
  {
    && sounds <= gains.Covering(anchor, heights)
    && forall bound | BoundsWithin(gains.tones,
         ForTransient(PricesOf(heights, together, gains.weighings), anchor.transient), anchor.apart, bound) ::
         sounds <= bound
  }

  /** At least everything that tones held within the heights can sound like. */
  ghost predicate Holds(gains: Gains, heights: Heights, together: Option<seq<real>>, bound: real)
    requires gains.Valid() && |heights| == |gains.tree| && (together.Some? ==> |together.value| == gains.weighings)
  {
    forall sounds | Sounds(gains, heights, together, sounds) :: sounds <= bound
  }

  /** No anchor's reach is less than nothing. */
  ghost predicate Reaches(gains: Gains)
    requires gains.Valid()
  {
    forall a | 0 <= a < |gains.anchors| :: ReachesOf(gains, gains.anchors[a])
  }

  ghost predicate ReachesOf(gains: Gains, anchor: Anchor)
    requires gains.Valid()
  {
    gains.Fits(anchor) && forall n | 0 <= n < |anchor.reach| :: anchor.reach[n] >= 0.0
  }

  // ---------------------------------------------------------------- from a tile to its moment

  /** No price is less where no height is. */
  lemma PricesRise(heights: Heights, higher: Heights, together: Option<seq<real>>, weighings: nat, transient: real)
    requires 0 < |heights| && Peaks.Under(heights, higher) && transient > 0.0
    requires together.Some? ==> |together.value| == weighings
    ensures var prices, more :=
        ForTransient(PricesOf(heights, together, weighings), transient),
        ForTransient(PricesOf(higher, together, weighings), transient);
      forall c | 0 <= c < |prices| :: prices[c] <= more[c]
  {
    var prices, more := PricesOf(heights, together, weighings), PricesOf(higher, together, weighings);
    assert forall c | 0 <= c < |prices| :: prices[c] <= more[c];
    Weighed(transient, prices[Peaks.WHOLE], more[Peaks.WHOLE]);
    WholeRises(prices, more, transient);
  }

  lemma WholeRises(prices: seq<real>, more: seq<real>, transient: real)
    requires 0 < |prices| == |more| && forall c | 0 <= c < |prices| :: prices[c] <= more[c]
    requires transient * prices[Peaks.WHOLE] <= transient * more[Peaks.WHOLE]
    ensures forall c | 0 <= c < |prices| :: ForTransient(prices, transient)[c] <= ForTransient(more, transient)[c]
  {
    var one, other := ForTransient(prices, transient), ForTransient(more, transient);
    assert one[Peaks.WHOLE] == transient * prices[Peaks.WHOLE];
    assert other[Peaks.WHOLE] == transient * more[Peaks.WHOLE];
    forall c | 0 <= c < |prices| ensures one[c] <= other[c] {
      if c != Peaks.WHOLE {
        assert one[c] == prices[c] && other[c] == more[c];
      }
    }
  }

  /** Whatever is held within lower prices is allowed by higher ones. */
  lemma WithinAllowed(tones: Tones, prices: seq<real>, more: seq<real>, apart: seq<real>, bound: real)
    requires tones.Valid() && |prices| == |more| == tones.covers && |apart| == tones.Points()
    requires forall c | 0 <= c < |prices| :: prices[c] <= more[c]
    requires tones.Bounds(more, apart, bound)
    ensures BoundsWithin(tones, prices, apart, bound)
  {
    forall mix | Within(tones, prices, mix) ensures tones.Sounding(apart, mix) <= bound {
      forall c | 0 <= c < tones.covers && more[c] > 0.0 ensures tones.Held(mix)[c] <= more[c] {
        assert prices[c] <= more[c];
      }
      assert tones.Allowed(more, mix);
    }
  }

  lemma CoveringRises(gains: Gains, anchor: Anchor, heights: Heights, higher: Heights)
    requires gains.Valid() && ReachesOf(gains, anchor) && |heights| == |gains.tree| && Peaks.Under(heights, higher)
    ensures gains.Covering(anchor, heights) <= gains.Covering(anchor, higher)
  {
    CheapestMonotone(gains.tree, anchor.reach, heights, higher, gains.bands);
    var level, more := Abs(anchor.level) * heights[Peaks.WHOLE], Abs(anchor.level) * higher[Peaks.WHOLE];
    Weighed(Abs(anchor.level), heights[Peaks.WHOLE], higher[Peaks.WHOLE]);
    CoveringMore(
      gains, anchor, heights, higher, level, more, Cheapest(gains.tree, Owns(anchor.reach, heights), 0, 0, gains.bands),
      Cheapest(gains.tree, Owns(anchor.reach, higher), 0, 0, gains.bands));
  }

  lemma CoveringMore(
    gains: Gains, anchor: Anchor, heights: Heights, higher: Heights, level: real, more: real, low: real, high: real)
    requires gains.Valid() && gains.Fits(anchor) && |heights| == |higher| == |gains.tree|
    requires level == Abs(anchor.level) * heights[Peaks.WHOLE] && more == Abs(anchor.level) * higher[Peaks.WHOLE]
    requires low == Cheapest(gains.tree, Owns(anchor.reach, heights), 0, 0, gains.bands)
    requires high == Cheapest(gains.tree, Owns(anchor.reach, higher), 0, 0, gains.bands)
    requires level <= more && low <= high
    ensures gains.Covering(anchor, heights) <= gains.Covering(anchor, higher)
  {
    CoveringIs(gains, anchor, heights, low, level);
    CoveringIs(gains, anchor, higher, high, more);
  }

  lemma CoveringIs(gains: Gains, anchor: Anchor, heights: Heights, cheapest: real, level: real)
    requires gains.Valid() && gains.Fits(anchor) && |heights| == |gains.tree|
    requires cheapest == Cheapest(gains.tree, Owns(anchor.reach, heights), 0, 0, gains.bands)
    requires level == Abs(anchor.level) * heights[Peaks.WHOLE]
    ensures gains.Covering(anchor, heights) == cheapest + level
  {
  }

  /** What is over everything a moment's bounds cover holds whatever is under the moment. */
  lemma OverHolds(gains: Gains, heights: Heights, moment: Heights, together: Option<seq<real>>, bound: real)
    requires gains.Valid() && Reaches(gains) && |heights| == |gains.tree| && Peaks.Under(heights, moment)
    requires together.Some? ==> |together.value| == gains.weighings
    requires gains.Over(moment, together, bound)
    ensures Holds(gains, heights, together, bound)
  {
    forall sounds | Sounds(gains, heights, together, sounds) ensures sounds <= bound {
      forall a | 0 <= a < |gains.anchors|
        ensures gains.UnderAnchor(gains.anchors[a], moment, together, sounds)
      {
        UnderMoment(gains, gains.anchors[a], heights, moment, together, sounds);
      }
      assert gains.UnderEvery(moment, together, sounds);
    }
  }

  lemma UnderMoment(
    gains: Gains, anchor: Anchor, heights: Heights, moment: Heights, together: Option<seq<real>>, sounds: real)
    requires gains.Valid() && ReachesOf(gains, anchor) && |heights| == |gains.tree| && Peaks.Under(heights, moment)
    requires together.Some? ==> |together.value| == gains.weighings
    requires SoundsAgainst(gains, anchor, heights, together, sounds)
    ensures gains.UnderAnchor(anchor, moment, together, sounds)
  {
    CoveringRises(gains, anchor, heights, moment);
    var prices := ForTransient(PricesOf(heights, together, gains.weighings), anchor.transient);
    var more := ForTransient(PricesOf(moment, together, gains.weighings), anchor.transient);
    PricesRise(heights, moment, together, gains.weighings, anchor.transient);
    forall bound | gains.tones.Bounds(more, anchor.apart, bound) ensures sounds <= bound {
      WithinAllowed(gains.tones, prices, more, anchor.apart, bound);
    }
  }

  lemma RingRises(gains: Gains, heights: Heights, higher: Heights)
    requires gains.Valid() && |heights| == |gains.tree| && Peaks.Under(heights, higher)
    ensures gains.Ring(heights) <= gains.Ring(higher)
  {
    CheapestMonotone(gains.tree, gains.ringing, heights, higher, gains.bands);
  }

  // ---------------------------------------------------------------- where nothing is heard

  lemma {:induction false} NothingCosts(tree: seq<Node>, own: seq<real>, index: nat, from: nat, end: nat)
    requires from < end && Rooted(tree, index, from, end) && |own| == |tree|
    requires forall k | 0 <= k < |own| :: own[k] == 0.0
    ensures Cheapest(tree, own, index, from, end) == 0.0
    decreases end - from
  {
    if end - from > 1 {
      var middle := Middle(from, end);
      NothingCosts(tree, own, index + 1, from, middle);
      NothingCosts(tree, own, index + 2 * (middle - from), middle, end);
    }
  }

  lemma OwnsNothing(reach: seq<real>, own: seq<real>)
    requires own == Owns(reach, Silence(|reach|))
    ensures |own| == |reach| && forall k | 0 <= k < |own| :: own[k] == 0.0
  {
  }

  /** Where no node is heard nothing is, and nothing rings. */
  lemma SilenceHolds(gains: Gains, heights: Heights, together: Option<seq<real>>, loudest: real)
    requires gains.Valid() && Reaches(gains) && |heights| == |gains.tree| && loudest >= 0.0
    requires together.Some? ==> |together.value| == gains.weighings
    requires Peaks.Under(heights, Silence(|gains.tree|))
    ensures Holds(gains, heights, together, loudest - gains.Ring(heights))
  {
    var silence, anchor := Silence(|gains.tree|), gains.anchors[0];
    RingRises(gains, heights, silence);
    SilenceRings(gains);
    CoveringRises(gains, anchor, heights, silence);
    SilenceCovered(gains, anchor);
    forall sounds | Sounds(gains, heights, together, sounds) ensures sounds <= loudest - gains.Ring(heights) {
      assert SoundsAgainst(gains, anchor, heights, together, sounds);
    }
  }

  lemma SilenceRings(gains: Gains)
    requires gains.Valid()
    ensures gains.Ring(Silence(|gains.tree|)) == 0.0
  {
    var own := Owns(gains.ringing, Silence(|gains.tree|));
    OwnsNothing(gains.ringing, own);
    NothingCosts(gains.tree, own, 0, 0, gains.bands);
  }

  lemma SilenceCovered(gains: Gains, anchor: Anchor)
    requires gains.Valid() && gains.Fits(anchor)
    ensures gains.Covering(anchor, Silence(|gains.tree|)) == 0.0
  {
    var own := Owns(anchor.reach, Silence(|gains.tree|));
    OwnsNothing(anchor.reach, own);
    NothingCosts(gains.tree, own, 0, 0, gains.bands);
    CoveringIs(gains, anchor, Silence(|gains.tree|), 0.0, 0.0);
  }

  // ---------------------------------------------------------------- every tile

  /** The moments kept in which anything is heard. */
  function MomentsOf(decibels: Decibels, kept: seq<Moment>, width: nat): (moments: seq<Heights>)
    requires forall k | 0 <= k < |kept| :: |kept[k].steps| == width
    ensures Alike(moments, width)
    ensures forall k | 0 <= k < |kept| && kept[k].loudest != SILENT_PEAK :: HeightsCoded(decibels, kept[k]) in moments
  {
    if kept == [] then []
    else
      var rest := MomentsOf(decibels, kept[1..], width);
      if kept[0].loudest == SILENT_PEAK then rest else [HeightsCoded(decibels, kept[0])] + rest
  }

  /** The two are held, as loud as either is in each node. */
  ghost predicate BothHeld(
    gains: Gains, one: Heights, other: Heights, together: Option<seq<real>>, loudest: real)
    requires gains.Valid() && |one| == |other| == |gains.tree|
    requires together.Some? ==> |together.value| == gains.weighings
  {
    Holds(gains, Louder(one, other), together, loudest - gains.Ring(Louder(one, other)))
  }

  lemma MomentHolds(
    gains: Gains, heights: Heights, moments: seq<Heights>, m: nat, together: Option<seq<real>>, loudest: real)
    requires gains.Valid() && Reaches(gains) && Alike(moments, |gains.tree|) && m < |moments|
    requires |heights| == |gains.tree| && Peaks.Under(heights, moments[m])
    requires together.Some? ==> |together.value| == gains.weighings
    requires OverAll(gains, moments, together, loudest - gains.Ring(WholeOf(moments, |gains.tree|)))
    ensures Holds(gains, heights, together, loudest - gains.Ring(heights))
  {
    OverHolds(gains, heights, moments[m], together, loudest - gains.Ring(WholeOf(moments, |gains.tree|)));
    RingRises(gains, heights, moments[m]);
    RingsAtLeast(gains, moments, m);
  }

  lemma PairHeld(
    gains: Gains, decibels: Decibels, one: Heights, other: Heights, kept: seq<Moment>, k: nat,
    together: Option<seq<real>>, loudest: real)
    requires gains.Valid() && Reaches(gains) && |one| == |other| == |gains.tree| && loudest >= 0.0
    requires k < |kept| && forall j | 0 <= j < |kept| :: |kept[j].steps| == |gains.tree|
    requires Peaks.Under(one, HeightsCoded(decibels, kept[k])) && Peaks.Under(other, HeightsCoded(decibels, kept[k]))
    requires together.Some? ==> |together.value| == gains.weighings
    requires var moments := MomentsOf(decibels, kept, |gains.tree|);
      OverAll(gains, moments, together, loudest - gains.Ring(WholeOf(moments, |gains.tree|)))
    ensures BothHeld(gains, one, other, together, loudest)
  {
    var louder, moments := Louder(one, other), MomentsOf(decibels, kept, |gains.tree|);
    if kept[k].loudest == SILENT_PEAK {
      SilenceHolds(gains, louder, together, loudest);
    } else {
      var m :| 0 <= m < |moments| && moments[m] == HeightsCoded(decibels, kept[k]);
      MomentHolds(gains, louder, moments, m, together, loudest);
    }
  }

  /** How loud the tiles of a stream may get: where something is heard of the whole, and no node is
      more than ten times as high as it or past every code, whatever tones are held within a tile
      and one near it, their ring with them, come to no more than the louder of this and the
      loudest of the others yet. */
  method BoundOfTiles(
    gains: Gains, hints: Hints, decibels: Decibels, tiles: seq<Heights>, figures: Option<seq<real>>, loudestYet: real,
    ghost most: real)
    returns (bound: real)
    requires gains.Valid() && Reaches(gains) && hints.Valid(gains.tones.covers) && decibels.Lawful()
    requires Alike(tiles, |gains.tree|) && most >= 0.0 && BetweenAll(tiles, most) && loudestYet >= 0.0
    requires figures.Some? ==> |figures.value| == gains.weighings
    modifies hints
    ensures hints.Valid(gains.tones.covers)
    ensures HeardWhole(tiles, |gains.tree|, most) && !PastEveryCode(decibels, most) ==>
      forall t, u | 0 <= t < |tiles| && ReachFrom(t) <= u < ReachTo(t, |tiles|) ::
        BothHeld(gains, tiles[t], tiles[u], TogetherOf(gains, figures), Max(loudestYet, bound))
  {
    var kept := Grouped(decibels, tiles, |gains.tree|, most);
    var moments := MomentsOf(decibels, kept, |gains.tree|);
    bound := BoundBeside(gains, hints, moments, figures, loudestYet);
    if HeardWhole(tiles, |gains.tree|, most) && !PastEveryCode(decibels, most) {
      forall t, u | 0 <= t < |tiles| && ReachFrom(t) <= u < ReachTo(t, |tiles|)
        ensures BothHeld(gains, tiles[t], tiles[u], TogetherOf(gains, figures), Max(loudestYet, bound))
      {
        assert CodesBoth(decibels, tiles, kept, t, u);
        var k :| 0 <= k < |kept| && Peaks.Under(tiles[t], HeightsCoded(decibels, kept[k]))
          && Peaks.Under(tiles[u], HeightsCoded(decibels, kept[k]));
        PairHeld(gains, decibels, tiles[t], tiles[u], kept, k, TogetherOf(gains, figures), Max(loudestYet, bound));
      }
    }
  }
}
