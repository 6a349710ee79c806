/** Rows of one width: what coefficients make of them, and what they make of a vector. */
module Matrices {
  import opened Vectors

  type Matrix = seq<seq<real>>

  function Zeros(width: nat): (zeros: seq<real>)
    ensures |zeros| == width && forall i | 0 <= i < width :: zeros[i] == 0.0
  {
    seq(width, _ => 0.0)
  }

  ghost predicate Even(design: seq<seq<real>>, width: nat) {
    forall t | 0 <= t < |design| :: |design[t]| == width
  }

  /** A vector with a multiple of another added to it. */
  function AddedTo(before: seq<real>, scale: real, more: seq<real>): (after: seq<real>)
    requires |before| == |more|
    ensures |after| == |before|
    ensures forall j | 0 <= j < |before| :: after[j] == Added(before[j], scale, more[j])
  {
    seq(|before|, j requires 0 <= j < |before| => Added(before[j], scale, more[j]))
  }

  lemma DotAddedTo(before: seq<real>, scale: real, more: seq<real>, after: seq<real>, x: seq<real>, width: nat)
    requires |before| == |more| == |x| == width && after == AddedTo(before, scale, more)
    ensures Dot(after, x, width) == Dot(before, x, width) + scale * Dot(more, x, width)
  {
    DotCombined(before, scale, more, after, x, width);
  }

  /** What the coefficients make of each row. */
  ghost function Modelled(design: seq<seq<real>>, width: nat, c: seq<real>): (modelled: seq<real>)
    requires Even(design, width) && |c| == width
    ensures |modelled| == |design| && forall t | 0 <= t < |design| :: modelled[t] == Dot(design[t], c, width)
  {
    seq(|design|, t requires 0 <= t < |design| => Dot(design[t], c, width))
  }

  /** A vector over the first `frames` rows, summed against each of their columns. */
  ghost function Against(design: seq<seq<real>>, width: nat, v: seq<real>, frames: nat): (sums: seq<real>)
    requires Even(design, width) && frames <= |design| && frames <= |v|
    ensures |sums| == width
  {
    Accumulated(design, width, v, frames)
  }

  ghost function Accumulated(design: seq<seq<real>>, width: nat, v: seq<real>, frames: nat): (sums: seq<real>)
    requires Even(design, width) && frames <= |design| && frames <= |v|
    ensures |sums| == width
  {
    if frames == 0 then Zeros(width)
    else AddedTo(Accumulated(design, width, v, frames - 1), v[frames - 1], design[frames - 1])
  }

  ghost function Column(design: seq<seq<real>>, width: nat, across: nat): (column: seq<real>)
    requires Even(design, width) && across < width
    ensures |column| == |design| && forall t | 0 <= t < |design| :: column[t] == design[t][across]
  {
    seq(|design|, t requires 0 <= t < |design| => design[t][across])
  }

  /** Summing over the rows what coefficients make of them is summing over the coefficients. */
  lemma {:induction false} SummedEitherWay(design: seq<seq<real>>, width: nat, v: seq<real>, c: seq<real>, frames: nat)
    requires Even(design, width) && |c| == width && frames <= |design| && frames <= |v|
    ensures Dot(v, Modelled(design, width, c), frames) == Dot(Against(design, width, v, frames), c, width)
  {
    var after := Against(design, width, v, frames);
    if frames == 0 {
      DotSilent(after, c, width);
    } else {
      SummedEitherWay(design, width, v, c, frames - 1);
      DotAddedTo(Against(design, width, v, frames - 1), v[frames - 1], design[frames - 1], after, c, width);
    }
  }

  lemma {:induction false} AgainstOne(design: seq<seq<real>>, width: nat, v: seq<real>, i: nat, frames: nat)
    requires Even(design, width) && i < width && frames <= |design| && frames <= |v|
    ensures Against(design, width, v, frames)[i] == Dot(v, Column(design, width, i), frames)
  {
    if frames > 0 {
      AgainstOne(design, width, v, i, frames - 1);
    }
  }
}
