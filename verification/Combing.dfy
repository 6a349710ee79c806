/** What a comb filter would leave of each band, worked out from what was transformed before it was
    filtered. */
module Combing {
  import opened Vectors

  /** A transform that is linear: of so many samples into so many lines. */
  type Transform = seq<real> -> seq<real>

  function Mixed(one: seq<real>, scale: real, other: seq<real>): (mixed: seq<real>)
    requires |one| == |other|
    ensures |mixed| == |one|
    ensures forall k {:trigger mixed[k]} | 0 <= k < |one| :: mixed[k] == Added(one[k], scale, other[k])
  {
    seq(|one|, k requires 0 <= k < |one| => Added(one[k], scale, other[k]))
  }

  ghost predicate Linear(transform: Transform, samples: nat, lines: nat) {
    && (forall one: seq<real> {:trigger transform(one)} | |one| == samples :: |transform(one)| == lines)
    && forall one: seq<real>, scale: real, other: seq<real> {:trigger transform(Mixed(one, scale, other))}
         | |one| == |other| == samples ::
         transform(Mixed(one, scale, other)) == Mixed(transform(one), scale, transform(other))
  }

  /** Five taps about a lag, alike on either side of it. */
  datatype Taps = Taps(centre: real, near: real, far: real)

  /** A signal and how much of the filter a sample is given. */
  datatype Fading = Fading(signal: int -> real, share: int -> real)

  /** The signal so far back, as far as each sample's share of it goes. */
  function Shifted(fading: Fading, lag: int, samples: nat): (shifted: seq<real>)
    ensures |shifted| == samples
    ensures forall k {:trigger shifted[k]} | 0 <= k < samples :: shifted[k] == fading.share(k) * fading.signal(k - lag)
  {
    seq(samples, k requires 0 <= k < samples => fading.share(k) * fading.signal(k - lag))
  }

  function CombedAt(fading: Fading, taps: Taps, period: int, at: int): (combed: real) {
    taps.centre * fading.signal(at - period)
    + taps.near * (fading.signal(at - period - 1) + fading.signal(at - period + 1))
    + taps.far * (fading.signal(at - period - 2) + fading.signal(at - period + 2))
  }

  /** The samples with the filter's gain of what it combs taken off, each by its share. */
  function Filtered(fading: Fading, plain: seq<real>, taps: Taps, period: int, gain: real): (filtered: seq<real>)
    ensures |filtered| == |plain|
    ensures forall k {:trigger filtered[k]} | 0 <= k < |plain| ::
      filtered[k] == plain[k] - gain * (fading.share(k) * CombedAt(fading, taps, period, k))
  {
    seq(|plain|, k requires 0 <= k < |plain| =>
      plain[k] - gain * (fading.share(k) * CombedAt(fading, taps, period, k)))
  }

  /** Lines combed as the samples would be, from those of the signal so far back and near it. */
  function CombedLines(
    taps: Taps, centre: seq<real>, near: seq<real>, nearer: seq<real>, far: seq<real>, farther: seq<real>)
    : (combed: seq<real>)
    requires |centre| == |near| == |nearer| == |far| == |farther|
    ensures |combed| == |centre|
    ensures forall line {:trigger combed[line]} | 0 <= line < |centre| ::
      combed[line] == taps.centre * centre[line] + taps.near * (near[line] + nearer[line])
                      + taps.far * (far[line] + farther[line])
  {
    seq(|centre|, line requires 0 <= line < |centre| =>
      taps.centre * centre[line] + taps.near * (near[line] + nearer[line]) + taps.far * (far[line] + farther[line]))
  }

  /** Taking off what is combed sample by sample is taking off each tap's shifted signal in turn. */
  lemma TakenInTurn(
    plain: real, gain: real, taps: Taps, share: real, centre: real, near: real, nearer: real, far: real, farther: real)
    ensures plain - gain * (share * (taps.centre * centre + taps.near * (near + nearer) + taps.far * (far + farther)))
      == Added(Added(Added(Added(Added(plain, -gain * taps.centre, share * centre), -gain * taps.near, share * near),
                           -gain * taps.near, share * nearer), -gain * taps.far, share * far),
               -gain * taps.far, share * farther)
  {
    SharedOut(share, taps, centre, near, nearer, far, farther);
    TakenOff(plain, gain, taps, share * centre, share * near, share * nearer, share * far, share * farther);
  }

  lemma SharedOut(share: real, taps: Taps, centre: real, near: real, nearer: real, far: real, farther: real)
    ensures share * (taps.centre * centre + taps.near * (near + nearer) + taps.far * (far + farther))
      == taps.centre * (share * centre) + taps.near * (share * near + share * nearer)
         + taps.far * (share * far + share * farther)
  {
    Twice(share, taps.centre, centre);
    Twice(share, taps.near, near + nearer);
    Twice(share, taps.far, far + farther);
  }

  lemma Twice(share: real, tap: real, value: real)
    ensures share * (tap * value) == tap * (share * value)
  {
  }

  /** So much less of what is combed, tap by tap. */
  lemma TakenOff(
    plain: real, gain: real, taps: Taps, centre: real, near: real, nearer: real, far: real, farther: real)
    ensures Added(Added(Added(Added(Added(plain, -gain * taps.centre, centre), -gain * taps.near, near),
                              -gain * taps.near, nearer), -gain * taps.far, far), -gain * taps.far, farther)
      == Added(plain, -gain, taps.centre * centre + taps.near * (near + nearer) + taps.far * (far + farther))
  {
    Gained(gain, taps.centre, centre);
    Gained(gain, taps.near, near);
    Gained(gain, taps.near, nearer);
    Gained(gain, taps.far, far);
    Gained(gain, taps.far, farther);
  }

  lemma Gained(gain: real, tap: real, value: real)
    ensures -gain * tap * value == -gain * (tap * value)
  {
  }

  /** A linear transform of the filtered samples is the transform of those that were not, less so
      much of the lines combed. */
  lemma FilteredLines(
    transform: Transform, fading: Fading, plain: seq<real>, taps: Taps, period: int, gain: real, lines: nat)
    requires Linear(transform, |plain|, lines)
    ensures var n := |plain|;
      var centre := transform(Shifted(fading, period, n));
      var near, nearer := transform(Shifted(fading, period + 1, n)), transform(Shifted(fading, period - 1, n));
      var far, farther := transform(Shifted(fading, period + 2, n)), transform(Shifted(fading, period - 2, n));
      && |transform(plain)| == |centre| == |near| == |nearer| == |far| == |farther| == lines
      && transform(Filtered(fading, plain, taps, period, gain))
         == Mixed(transform(plain), -gain, CombedLines(taps, centre, near, nearer, far, farther))
  {
    var n := |plain|;
    var s0 := Shifted(fading, period, n);
    var s1, s2 := Shifted(fading, period + 1, n), Shifted(fading, period - 1, n);
    var s3, s4 := Shifted(fading, period + 2, n), Shifted(fading, period - 2, n);
    FilteredInTurn(fading, plain, taps, period, gain);
    var m1 := Mixed(plain, -gain * taps.centre, s0);
    var m2 := Mixed(m1, -gain * taps.near, s1);
    var m3 := Mixed(m2, -gain * taps.near, s2);
    var m4 := Mixed(m3, -gain * taps.far, s3);
    assert transform(Mixed(m4, -gain * taps.far, s4))
      == Mixed(Mixed(Mixed(Mixed(Mixed(transform(plain), -gain * taps.centre, transform(s0)), -gain * taps.near,
                                 transform(s1)), -gain * taps.near, transform(s2)), -gain * taps.far, transform(s3)),
               -gain * taps.far, transform(s4));
    LinesInTurn(
      transform(plain), gain, taps, transform(s0), transform(s1), transform(s2), transform(s3), transform(s4));
  }

  lemma FilteredInTurn(fading: Fading, plain: seq<real>, taps: Taps, period: int, gain: real)
    ensures var n := |plain|;
      Filtered(fading, plain, taps, period, gain)
      == Mixed(Mixed(Mixed(Mixed(Mixed(plain, -gain * taps.centre, Shifted(fading, period, n)),
                                 -gain * taps.near, Shifted(fading, period + 1, n)),
                           -gain * taps.near, Shifted(fading, period - 1, n)),
                     -gain * taps.far, Shifted(fading, period + 2, n)),
               -gain * taps.far, Shifted(fading, period - 2, n))
  {
    var n := |plain|;
    var taken := Mixed(Mixed(Mixed(Mixed(Mixed(plain, -gain * taps.centre, Shifted(fading, period, n)),
                                         -gain * taps.near, Shifted(fading, period + 1, n)),
                                   -gain * taps.near, Shifted(fading, period - 1, n)),
                             -gain * taps.far, Shifted(fading, period + 2, n)),
                       -gain * taps.far, Shifted(fading, period - 2, n));
    forall k | 0 <= k < n ensures Filtered(fading, plain, taps, period, gain)[k] == taken[k] {
      TakenInTurn(
        plain[k], gain, taps, fading.share(k), fading.signal(k - period), fading.signal(k - (period + 1)),
        fading.signal(k - (period - 1)), fading.signal(k - (period + 2)), fading.signal(k - (period - 2)));
    }
  }

  lemma LinesInTurn(
    plain: seq<real>, gain: real, taps: Taps, centre: seq<real>, near: seq<real>, nearer: seq<real>, far: seq<real>,
    farther: seq<real>)
    requires |plain| == |centre| == |near| == |nearer| == |far| == |farther|
    ensures Mixed(Mixed(Mixed(Mixed(Mixed(plain, -gain * taps.centre, centre), -gain * taps.near, near),
                              -gain * taps.near, nearer), -gain * taps.far, far), -gain * taps.far, farther)
      == Mixed(plain, -gain, CombedLines(taps, centre, near, nearer, far, farther))
  {
    var combed := CombedLines(taps, centre, near, nearer, far, farther);
    var own, beside, beyond := -gain * taps.centre, -gain * taps.near, -gain * taps.far;
    forall line | 0 <= line < |plain|
      ensures InTurn(plain[line], own, centre[line], beside, near[line], nearer[line], beyond, far[line], farther[line])
        == Added(plain[line], -gain, combed[line])
    {
      TakenOff(plain[line], gain, taps, centre[line], near[line], nearer[line], far[line], farther[line]);
    }
    EachInTurn(plain, own, centre, beside, near, nearer, beyond, far, farther, Mixed(plain, -gain, combed));
  }

  /** One after another, each so many times over. */
  function InTurn(
    plain: real, own: real, centre: real, beside: real, near: real, nearer: real, beyond: real, far: real,
    farther: real): (mixed: real)
  {
    Added(Added(Added(Added(Added(plain, own, centre), beside, near), beside, nearer), beyond, far), beyond, farther)
  }

  lemma EachInTurn(
    plain: seq<real>, own: real, centre: seq<real>, beside: real, near: seq<real>, nearer: seq<real>, beyond: real,
    far: seq<real>, farther: seq<real>, taken: seq<real>)
    requires |plain| == |centre| == |near| == |nearer| == |far| == |farther| == |taken|
    requires forall line | 0 <= line < |plain| ::
      InTurn(plain[line], own, centre[line], beside, near[line], nearer[line], beyond, far[line], farther[line])
      == taken[line]
    ensures Mixed(Mixed(Mixed(Mixed(Mixed(plain, own, centre), beside, near), beside, nearer), beyond, far), beyond,
                  farther)
      == taken
  {
    var two := Mixed(Mixed(plain, own, centre), beside, near);
    var four := Mixed(Mixed(two, beside, nearer), beyond, far);
    forall line | 0 <= line < |plain| ensures Mixed(four, beyond, farther)[line] == taken[line] {
      assert two[line] == Added(Added(plain[line], own, centre[line]), beside, near[line]);
      assert four[line] == Added(Added(two[line], beside, nearer[line]), beyond, far[line]);
    }
  }

  /** What two spectra share of a band. */
  function Power(one: seq<real>, other: seq<real>, from: nat, upto: nat): (power: real)
    requires from <= upto <= |one| && upto <= |other|
  {
    Powers(one, other, from, upto)
  }

  function Powers(one: seq<real>, other: seq<real>, from: nat, upto: nat): (power: real)
    requires from <= upto <= |one| && upto <= |other|
    decreases upto - from
  {
    if from == upto then 0.0 else Powers(one, other, from, upto - 1) + one[upto - 1] * other[upto - 1]
  }

  lemma PowerGrows(one: seq<real>, other: seq<real>, from: nat, last: nat, product: real)
    requires from <= last < |one| && last < |other| && product == one[last] * other[last]
    ensures Power(one, other, from, last + 1) == Power(one, other, from, last) + product
  {
  }

  /** So much of what is shared taken off twice, and what was taken off put back once. */
  ghost predicate IsCrossed(filtered: real, own: real, shared: real, combed: real, gain: real) {
    filtered == own - 2.0 * gain * shared + gain * gain * combed
  }

  /** The energy of a mix in a band, from what its two parts have of it and share of it. */
  lemma {:induction false} MixedPower(one: seq<real>, other: seq<real>, gain: real, from: nat, upto: nat)
    requires |one| == |other| && from <= upto <= |one|
    ensures var mixed := Mixed(one, -gain, other);
      && IsCrossed(Power(mixed, mixed, from, upto), Power(one, one, from, upto), Power(one, other, from, upto),
                   Power(other, other, from, upto), gain)
      && Power(mixed, mixed, from, upto) >= 0.0
    decreases upto - from
  {
    if from < upto {
      MixedPower(one, other, gain, from, upto - 1);
      LineCrossed(Mixed(one, -gain, other), one, other, gain, from, upto - 1);
    }
  }

  lemma LineCrossed(mixed: seq<real>, one: seq<real>, other: seq<real>, gain: real, from: nat, last: nat)
    requires from <= last < |mixed| == |one| == |other| && mixed[last] == Added(one[last], -gain, other[last])
    requires IsCrossed(Power(mixed, mixed, from, last), Power(one, one, from, last), Power(one, other, from, last),
                       Power(other, other, from, last), gain)
    ensures IsCrossed(Power(mixed, mixed, from, last + 1), Power(one, one, from, last + 1),
                      Power(one, other, from, last + 1), Power(other, other, from, last + 1), gain)
    ensures Power(mixed, mixed, from, last + 1) >= Power(mixed, mixed, from, last)
  {
    var filtered, own, shared, combed :=
      mixed[last] * mixed[last], one[last] * one[last], one[last] * other[last], other[last] * other[last];
    SquareOfMixed(one[last], other[last], gain, mixed[last]);
    PowerGrows(mixed, mixed, from, last, filtered);
    PowerGrows(one, one, from, last, own);
    PowerGrows(one, other, from, last, shared);
    PowerGrows(other, other, from, last, combed);
    OneMoreCrossed(Power(mixed, mixed, from, last), Power(one, one, from, last), Power(one, other, from, last),
      Power(other, other, from, last), gain, filtered, own, shared, combed);
  }

  lemma SquareOfMixed(one: real, other: real, gain: real, mixed: real)
    requires mixed == Added(one, -gain, other)
    ensures IsCrossed(mixed * mixed, one * one, one * other, other * other, gain) && mixed * mixed >= 0.0
  {
    var taken := gain * other;
    assert mixed == one - taken;
    assert mixed * mixed == one * one - 2.0 * (one * taken) + taken * taken;
    assert one * taken == gain * (one * other);
    assert taken * taken == gain * gain * (other * other);
  }

  lemma OneMoreCrossed(
    filtered: real, own: real, shared: real, combed: real, gain: real, filteredMore: real, ownMore: real,
    sharedMore: real, combedMore: real)
    requires IsCrossed(filtered, own, shared, combed, gain)
    requires IsCrossed(filteredMore, ownMore, sharedMore, combedMore, gain)
    ensures IsCrossed(filtered + filteredMore, own + ownMore, shared + sharedMore, combed + combedMore, gain)
  {
    Gathered(gain, shared, sharedMore);
    Gathered(gain * gain, combed, combedMore);
  }

  lemma Gathered(times: real, sum: real, more: real)
    ensures times * (sum + more) == times * sum + times * more
    ensures 2.0 * times * (sum + more) == 2.0 * times * sum + 2.0 * times * more
  {
  }

  /** A band's energy as it would be had the samples been filtered first and then transformed, from
      energies worked out once for every gain: what the plain lines have of it, less what they
      share with the lines combed, and what those have. It is never under nothing. */
  lemma CrossedEnergies(
    transform: Transform, fading: Fading, plain: seq<real>, taps: Taps, period: int, gain: real, lines: nat, from: nat,
    upto: nat)
    requires Linear(transform, |plain|, lines) && from <= upto <= lines
    ensures var n := |plain|;
      var centre := transform(Shifted(fading, period, n));
      var near, nearer := transform(Shifted(fading, period + 1, n)), transform(Shifted(fading, period - 1, n));
      var far, farther := transform(Shifted(fading, period + 2, n)), transform(Shifted(fading, period - 2, n));
      var own, filtered := transform(plain), transform(Filtered(fading, plain, taps, period, gain));
      && |own| == |filtered| == |centre| == |near| == |nearer| == |far| == |farther| == lines
      && var combed := CombedLines(taps, centre, near, nearer, far, farther);
      && IsCrossed(Power(filtered, filtered, from, upto), Power(own, own, from, upto), Power(own, combed, from, upto),
                   Power(combed, combed, from, upto), gain)
      && Power(filtered, filtered, from, upto) >= 0.0
  {
    FilteredLines(transform, fading, plain, taps, period, gain, lines);
    var n := |plain|;
    var combed := CombedLines(
      taps, transform(Shifted(fading, period, n)), transform(Shifted(fading, period + 1, n)),
      transform(Shifted(fading, period - 1, n)), transform(Shifted(fading, period + 2, n)),
      transform(Shifted(fading, period - 2, n)));
    MixedPower(transform(plain), combed, gain, from, upto);
  }
}
