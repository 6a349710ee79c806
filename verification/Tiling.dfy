/** A stretch of frames held as the loudest of each tile, the tiles doubled in length whenever
    they would come to be too many. */
module Tiling {
  import opened Vectors

  type Heights = seq<real>

  /** The louder of each node. */
  function Louder(one: Heights, other: Heights): (louder: Heights)
    requires |one| == |other|
    ensures |louder| == |one| && forall n | 0 <= n < |one| :: louder[n] == Max(one[n], other[n])
  {
    seq(|one|, n requires 0 <= n < |one| => Max(one[n], other[n]))
  }

  ghost predicate Alike(heights: seq<Heights>, width: nat) {
    forall f | 0 <= f < |heights| :: |heights[f]| == width
  }

  function Silence(width: nat): (silence: Heights)
    ensures |silence| == width && forall n | 0 <= n < width :: silence[n] == 0.0
  {
    seq(width, _ => 0.0)
  }

  /** Which tile a frame is in. */
  function TileOf(frame: nat, each: nat): (tile: nat)
    requires each > 0
    decreases frame
  {
    if frame < each then 0 else 1 + TileOf(frame - each, each)
  }

  lemma {:induction false} TileIsQuotient(frame: nat, each: nat)
    requires each > 0
    ensures TileOf(frame, each) == frame / each
    decreases frame
  {
    if frame >= each {
      TileIsQuotient(frame - each, each);
      OneTileOn(frame, each, (frame - each) / each, frame / each);
    }
  }

  lemma OneTileOn(frame: nat, each: nat, before: int, tile: int)
    requires each > 0 && each <= frame
    requires 0 <= frame - each - each * before < each && 0 <= frame - each * tile < each
    ensures tile == before + 1
  {
    var apart := tile - before - 1;
    assert each * tile == each * before + each + each * apart;
    if apart >= 1 {
      AtLeastOne(each, apart);
    } else if apart <= -1 {
      AtLeastOne(each, -apart);
    }
  }

  lemma AtLeastOne(each: int, tiles: int)
    requires each > 0 && tiles >= 1
    ensures each * tiles >= each && each * -tiles == -(each * tiles)
  {
  }

  /** The loudest of each node over the frames of one tile, and nothing where it has none. */
  ghost function Loudest(heights: seq<Heights>, width: nat, each: nat, tile: nat, upto: nat): (loudest: Heights)
    requires Alike(heights, width) && each > 0 && upto <= |heights|
    ensures |loudest| == width && forall n | 0 <= n < width :: loudest[n] >= 0.0
  {
    if upto == 0 then Silence(width)
    else
      var before := Loudest(heights, width, each, tile, upto - 1);
      if TileOf(upto - 1, each) == tile then Louder(before, heights[upto - 1]) else before
  }

  lemma {:induction false} LoudestAgrees(
    heights: seq<Heights>, others: seq<Heights>, width: nat, each: nat, tile: nat, upto: nat)
    requires Alike(heights, width) && Alike(others, width) && each > 0 && upto <= |heights| && upto <= |others|
    requires forall f | 0 <= f < upto :: heights[f] == others[f]
    ensures Loudest(heights, width, each, tile, upto) == Loudest(others, width, each, tile, upto)
  {
    if upto > 0 {
      LoudestAgrees(heights, others, width, each, tile, upto - 1);
    }
  }

  /** Two tiles side by side are one twice as long. */
  lemma {:induction false} LoudestOfPair(heights: seq<Heights>, width: nat, each: nat, tile: nat, upto: nat)
    requires Alike(heights, width) && each > 0 && upto <= |heights|
    ensures Louder(Loudest(heights, width, each, 2 * tile, upto), Loudest(heights, width, each, 2 * tile + 1, upto))
         == Loudest(heights, width, 2 * each, tile, upto)
  {
    if upto > 0 {
      LoudestOfPair(heights, width, each, tile, upto - 1);
      Halved(upto - 1, each);
    }
  }

  lemma {:induction false} Halved(frame: nat, each: nat)
    requires each > 0
    ensures TileOf(frame, 2 * each) == TileOf(frame, each) / 2
    decreases frame
  {
    if frame >= 2 * each {
      Halved(frame - 2 * each, each);
    }
  }

  /** A tile past the last frame holds nothing. */
  lemma {:induction false} LoudestBeyond(heights: seq<Heights>, width: nat, each: nat, tile: nat, upto: nat)
    requires Alike(heights, width) && each > 0 && upto <= |heights|
    requires upto > 0 ==> TileOf(upto - 1, each) < tile
    ensures Loudest(heights, width, each, tile, upto) == Silence(width)
  {
    if upto > 0 {
      if upto > 1 {
        InOrder(upto - 2, upto - 1, each);
      }
      LoudestBeyond(heights, width, each, tile, upto - 1);
    }
  }

  lemma {:induction false} InOrder(one: nat, other: nat, each: nat)
    requires one <= other && each > 0
    ensures TileOf(one, each) <= TileOf(other, each)
    decreases one
  {
    if one >= each {
      InOrder(one - each, other - each, each);
    }
  }

  /** How long tiles have to be for the one that holds a frame to be among those allowed. */
  ghost function Doubled(each: nat, frame: nat, most: nat): (doubled: nat)
    requires each > 0 && most > 0
    ensures doubled >= each && TileOf(frame, doubled) < most
    decreases TileOf(frame, each)
  {
    if TileOf(frame, each) < most then each
    else
      Halved(frame, each);
      Doubled(2 * each, frame, most)
  }

  lemma {:induction false} DoubledAlike(each: nat, one: nat, other: nat, most: nat)
    requires each > 0 && most > 0 && one <= other
    requires TileOf(one, Doubled(each, one, most)) == TileOf(other, Doubled(each, one, most))
    ensures Doubled(each, other, most) == Doubled(each, one, most)
    decreases TileOf(one, each)
  {
    if TileOf(one, each) >= most {
      InOrder(one, other, each);
      Halved(one, each);
      DoubledAlike(2 * each, one, other, most);
    }
  }

  /** Doubling for an earlier frame first comes to the same. */
  lemma {:induction false} DoubledFurther(each: nat, one: nat, other: nat, most: nat)
    requires each > 0 && most > 0 && one <= other
    ensures Doubled(Doubled(each, one, most), other, most) == Doubled(each, other, most)
    decreases TileOf(one, each)
  {
    if TileOf(one, each) >= most {
      InOrder(one, other, each);
      Halved(one, each);
      DoubledFurther(2 * each, one, other, most);
    }
  }

  class Tiles {
    const width: nat
    const most: nat
    const each: nat
    var frames: nat
    var loudest: seq<Heights>

    ghost predicate Shaped()
      reads this
    {
      each > 0 && most > 0 && frames > 0 && Alike(loudest, width)
    }

    /** The tiles hold exactly the frames noted, each the loudest of its own; there are as many
        as the frames asked for so far need, none longer than it has to be. */
    ghost predicate Holds(heights: seq<Heights>, asked: nat)
      reads this
    {
      && Shaped() && Alike(heights, width) && Spread(heights)
      && (asked == 0 ==> loudest == [] && frames == each)
      && (asked > 0 ==> frames == Doubled(each, asked - 1, most) && |loudest| == TileOf(asked - 1, frames) + 1)
    }

    ghost predicate Spread(heights: seq<Heights>)
      requires Shaped() && Alike(heights, width)
      reads this
    {
      && (|heights| > 0 ==> TileOf(|heights| - 1, frames) < |loudest|)
      && forall t | 0 <= t < |loudest| :: loudest[t] == Loudest(heights, width, frames, t, |heights|)
    }

    constructor Each(frames: nat, most: nat, width: nat)
      requires frames > 0 && most > 0
      ensures Shaped() && this.frames == frames == each && loudest == [] && this.most == most && this.width == width
    {
      this.width := width;
      this.most := most;
      this.each := frames;
      this.frames := frames;
      this.loudest := [];
    }

    /** Tiles enough to hold the frame, and which of them it is in. */
    method Holding(frame: nat, ghost heights: seq<Heights>, ghost asked: nat) returns (tile: nat)
      requires Holds(heights, asked) && asked <= frame + 1 && |heights| <= frame + 1
      modifies this`frames, this`loudest
      ensures Holds(heights, frame + 1) && tile == TileOf(frame, frames) < |loudest|
      ensures tile == frame / frames
    {
      tile := TileOf(frame, frames);
      ghost var wanted := Doubled(each, frame, most);
      Reached(heights, asked, frame);
      while tile >= |loudest|
        invariant Shaped() && tile == TileOf(frame, frames) && |loudest| <= tile + 1 && |loudest| <= most
        invariant Doubled(frames, frame, most) == wanted
        invariant Spread(heights)
        decreases tile + 1 - |loudest|, TileOf(frame, frames)
      {
        ghost var before := loudest;
        loudest := loudest + [Silence(width)];
        Pushed(heights, before);
        if |loudest| > most {
          ghost var longer := frames;
          Halve(heights);
          Halved(frame, longer);
          tile := TileOf(frame, frames);
        }
      }
      TileIsQuotient(frame, frames);
    }

    /** How many frames, this one among them, are left of the tile that holds it. */
    method FramesLeftOfTheTileHolding(frame: nat, ghost heights: seq<Heights>, ghost asked: nat) returns (left: nat)
      requires Holds(heights, asked) && asked <= frame + 1 && |heights| <= frame + 1
      modifies this`frames, this`loudest
      ensures Holds(heights, frame + 1) && left > 0
      ensures forall f | frame <= f < frame + left :: TileOf(f, frames) == TileOf(frame, frames)
    {
      var tile := Holding(frame, heights, asked);
      left := frames - Into(frame, frames);
      SameTile(frame, frames);
    }

    /** The tile holding a run of frames made at least as loud as they are. */
    method Raise(tile: nat, louder: Heights, ghost heights: seq<Heights>, ghost more: seq<Heights>)
      requires Holds(heights, |heights| + 1) && Alike(more, width) && |more| > 0 && tile < |loudest|
      requires forall f | |heights| <= f < |heights| + |more| :: TileOf(f, frames) == tile
      requires louder == LoudestOver(loudest[tile], more, |more|)
      modifies this`loudest
      ensures Holds(heights + more, |heights| + |more|)
    {
      ghost var all := heights + more;
      forall t | 0 <= t < |loudest| ensures Loudest(all, width, frames, t, |all|)
        == if t == tile then louder else loudest[t]
      {
        RunRaises(heights, more, width, frames, t, tile, |more|);
      }
      DoubledAlike(each, |heights|, |all| - 1, most);
      loudest := loudest[tile := louder];
    }

    lemma Reached(heights: seq<Heights>, asked: nat, frame: nat)
      requires Holds(heights, asked) && asked <= frame + 1
      ensures |loudest| <= TileOf(frame, frames) + 1 && |loudest| <= most
      ensures Doubled(frames, frame, most) == Doubled(each, frame, most)
    {
      if asked > 0 {
        InOrder(asked - 1, frame, frames);
        DoubledFurther(each, asked - 1, frame, most);
      }
    }

    lemma Pushed(heights: seq<Heights>, before: seq<Heights>)
      requires Shaped() && Alike(heights, width) && loudest == before + [Silence(width)]
      requires |heights| > 0 ==> TileOf(|heights| - 1, frames) < |before|
      requires forall t | 0 <= t < |before| :: before[t] == Loudest(heights, width, frames, t, |heights|)
      ensures Spread(heights)
    {
      LoudestBeyond(heights, width, frames, |before|, |heights|);
      forall t | 0 <= t < |loudest| ensures loudest[t] == Loudest(heights, width, frames, t, |heights|) {
        PushedTo(before, Silence(width), t);
      }
    }

    /** Every two tiles made one of twice the length. */
    method Halve(ghost heights: seq<Heights>)
      requires Shaped() && Alike(heights, width) && Spread(heights)
      modifies this`frames, this`loudest
      ensures Shaped() && frames == 2 * old(frames) && |loudest| == (|old(loudest)| + 1) / 2
      ensures Spread(heights)
    {
      PairsHold(heights, loudest);
      loudest := Paired(loudest, width);
      frames := 2 * frames;
    }

    lemma PairsHold(heights: seq<Heights>, tiles: seq<Heights>)
      requires Shaped() && Alike(heights, width) && tiles == loudest && Spread(heights)
      ensures forall t | 0 <= t < (|tiles| + 1) / 2 ::
        Paired(tiles, width)[t] == Loudest(heights, width, 2 * frames, t, |heights|)
      ensures |heights| > 0 ==> TileOf(|heights| - 1, 2 * frames) < (|tiles| + 1) / 2
    {
      forall t | 0 <= t < (|tiles| + 1) / 2
        ensures Paired(tiles, width)[t] == Loudest(heights, width, 2 * frames, t, |heights|)
      {
        PairHolds(heights, width, frames, tiles, t);
      }
      if |heights| > 0 {
        Halved(|heights| - 1, frames);
      }
    }
  }

  /** How far into its tile a frame is. */
  function Into(frame: nat, each: nat): (into: nat)
    requires each > 0
    ensures into < each
    decreases frame
  {
    if frame < each then frame else Into(frame - each, each)
  }

  lemma {:induction false} SameTile(frame: nat, each: nat)
    requires each > 0
    ensures forall f | frame <= f < frame + (each - Into(frame, each)) :: TileOf(f, each) == TileOf(frame, each)
    decreases frame
  {
    if frame >= each {
      SameTile(frame - each, each);
      forall f | frame <= f < frame + (each - Into(frame, each)) ensures TileOf(f, each) == TileOf(frame, each) {
        assert TileOf(f - each, each) == TileOf(frame - each, each);
      }
    }
  }

  /** One node's heights with the first of a run of frames counted. */
  ghost function LoudestOver(before: Heights, more: seq<Heights>, upto: nat): (loudest: Heights)
    requires Alike(more, |before|) && upto <= |more|
    ensures |loudest| == |before|
  {
    if upto == 0 then before else Louder(LoudestOver(before, more, upto - 1), more[upto - 1])
  }

  lemma RunRaises(
    heights: seq<Heights>, more: seq<Heights>, width: nat, each: nat, t: nat, tile: nat, upto: nat)
    requires Alike(heights, width) && Alike(more, width) && each > 0 && upto <= |more|
    requires forall f | |heights| <= f < |heights| + |more| :: TileOf(f, each) == tile
    ensures Loudest(heights + more, width, each, t, |heights| + upto)
      == if t == tile then LoudestOver(Loudest(heights, width, each, t, |heights|), more, upto)
         else Loudest(heights, width, each, t, |heights|)
  {
    LoudestAgrees(heights + more, heights, width, each, t, |heights|);
    RunRaisesFrom(heights + more, width, each, t, tile, |heights|, more, upto, |heights| + upto,
      Loudest(heights, width, each, t, |heights|));
  }

  lemma {:induction false} RunRaisesFrom(
    all: seq<Heights>, width: nat, each: nat, t: nat, tile: nat, from: nat, more: seq<Heights>, upto: nat, end: nat,
    before: Heights)
    requires Alike(all, width) && Alike(more, width) && each > 0 && upto <= |more| && |before| == width
    requires end == from + upto <= |all| && forall k | 0 <= k < upto :: all[from + k] == more[k]
    requires forall f | from <= f < end :: TileOf(f, each) == tile
    requires before == Loudest(all, width, each, t, from)
    ensures Loudest(all, width, each, t, end) == if t == tile then LoudestOver(before, more, upto) else before
    decreases upto
  {
    if upto > 0 {
      RunRaisesFrom(all, width, each, t, tile, from, more, upto - 1, end - 1, before);
      assert TileOf(end - 1, each) == tile && all[from + (upto - 1)] == more[upto - 1];
      OneFrameMore(all, width, each, t, end - 1, more[upto - 1]);
    }
  }

  lemma OneFrameMore(heights: seq<Heights>, width: nat, each: nat, t: nat, last: nat, frame: Heights)
    requires Alike(heights, width) && each > 0 && last < |heights| && frame == heights[last]
    ensures Loudest(heights, width, each, t, last + 1)
      == if TileOf(last, each) == t then Louder(Loudest(heights, width, each, t, last), frame)
         else Loudest(heights, width, each, t, last)
  {
  }

  lemma PushedTo(before: seq<Heights>, more: Heights, t: nat)
    requires t <= |before|
    ensures (before + [more])[t] == if t == |before| then more else before[t]
  {
  }

  lemma PairHolds(heights: seq<Heights>, width: nat, frames: nat, tiles: seq<Heights>, t: nat)
    requires Alike(heights, width) && Alike(tiles, width) && frames > 0 && 2 * t < |tiles|
    requires |heights| > 0 ==> TileOf(|heights| - 1, frames) < |tiles|
    requires forall t | 0 <= t < |tiles| :: tiles[t] == Loudest(heights, width, frames, t, |heights|)
    ensures PairOf(tiles, width, t) == Loudest(heights, width, 2 * frames, t, |heights|)
  {
    var first, second := 2 * t, 2 * t + 1;
    assert tiles[first] == Loudest(heights, width, frames, first, |heights|);
    LoudestOfPair(heights, width, frames, t, |heights|);
    if second == |tiles| {
      LoudestBeyond(heights, width, frames, second, |heights|);
      Alone(tiles[first]);
    }
  }

  lemma Alone(tile: Heights)
    requires forall n | 0 <= n < |tile| :: tile[n] >= 0.0
    ensures Louder(tile, Silence(|tile|)) == tile == Louder(tile, tile)
  {
  }

  function Paired(tiles: seq<Heights>, width: nat): (paired: seq<Heights>)
    requires Alike(tiles, width)
    ensures |paired| == (|tiles| + 1) / 2 && Alike(paired, width)
    ensures forall t | 0 <= t < |paired| :: paired[t] == PairOf(tiles, width, t)
  {
    seq((|tiles| + 1) / 2, t requires 0 <= t < (|tiles| + 1) / 2 => PairOf(tiles, width, t))
  }

  function PairOf(tiles: seq<Heights>, width: nat, t: nat): (pair: Heights)
    requires Alike(tiles, width) && 2 * t < |tiles|
    ensures |pair| == width
  {
    Louder(tiles[2 * t], if 2 * t + 1 < |tiles| then tiles[2 * t + 1] else tiles[2 * t])
  }
}
