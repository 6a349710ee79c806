/** The linear prediction behind the pitch search: Levinson's recursion over a
    correlation of any length, updating its taps in place. */
module Pitch {
  import opened Vectors
  import opened Folding

  const STOPS_UNDER := 0.001
  const SILENT_AT_MOST := 0.0000000001

  /** The correlation at each lag `|i - j|`, as column `i` of the symmetric Toeplitz matrix sees it. */
  function Lags(r: seq<real>, i: int, order: nat): (lags: seq<real>)
    requires 0 <= i < |r| && order <= |r|
    ensures |lags| == order
    ensures forall j | 0 <= j < order :: lags[j] == r[Apart(i, j)]
  {
    seq(order, j requires 0 <= j < order => r[Apart(i, j)])
  }

  function Apart(i: int, j: int): (d: nat)
    ensures d == i - j || d == j - i
  {
    if i < j then j - i else i - j
  }

  /** The taps of one order answer every row of the Toeplitz system of that order. */
  ghost predicate Predicts(taps: seq<real>, order: nat, r: seq<real>)
    requires order <= |taps| && order < |r|
  {
    forall i | 0 <= i < order :: Row(taps, i, order, r) == -r[i + 1]
  }

  ghost function Row(taps: seq<real>, i: nat, order: nat, r: seq<real>): real
    requires order <= |taps| && i <= order <= |r| && i < |r|
  {
    Dot(taps, Lags(r, i, order), order)
  }

  /** What is left of the energy once the taps have predicted what they can. */
  ghost function Left(taps: seq<real>, order: nat, r: seq<real>): real
    requires order <= |taps| && order < |r|
  {
    r[0] + Dot(taps, r[1..], order)
  }

  /** The taps of the next order, before any are overwritten: each with `k` times its mirror
      image, and `k` itself after them. */
  ghost predicate Reflected(taps: seq<real>, order: nat, k: real, next: seq<real>)
    requires order < |taps| && |next| == |taps|
  {
    && next[order] == k
    && forall j | 0 <= j < order :: next[j] == Added(taps[j], k, taps[order - 1 - j])
  }

  /** Mirrored taps meet mirrored rows: the system is symmetric about its second diagonal. */
  lemma MirroredRow(taps: seq<real>, mirrored: seq<real>, order: nat, r: seq<real>, i: nat)
    requires order <= |taps| && order <= |mirrored| && i < order < |r|
    requires forall j | 0 <= j < order :: mirrored[j] == taps[order - 1 - j]
    ensures Dot(mirrored, Lags(r, i, order), order) == Dot(taps, Lags(r, order - 1 - i, order), order)
  {
    var here, there := Lags(r, i, order), Lags(r, order - 1 - i, order);
    forall j | 0 <= j < order ensures here[j] == there[order - 1 - j] {
      assert Apart(i, j) == Apart(order - 1 - i, order - 1 - j);
    }
    DotReversed(taps, there, mirrored, here, order);
  }

  /** The same for the row just below the system. */
  lemma MirroredBelow(taps: seq<real>, mirrored: seq<real>, order: nat, r: seq<real>)
    requires order <= |taps| && order <= |mirrored| && order < |r|
    requires forall j | 0 <= j < order :: mirrored[j] == taps[order - 1 - j]
    ensures Dot(mirrored, Lags(r, order, order), order) == Dot(taps, r[1..], order)
    ensures Dot(mirrored, r[1..], order) == Dot(taps, Lags(r, order, order), order)
  {
    var below := Lags(r, order, order);
    DotReversed(taps, r[1..], mirrored, below, order);
    DotReversed(taps, below, mirrored, r[1..], order);
  }

  /** The sum a new order makes of one column: the old taps', `k` times the mirrored ones',
      and `k` times the column's own last entry. */
  ghost predicate SumsOver(
    taps: seq<real>, mirrored: seq<real>, order: nat, k: real, next: seq<real>, column: seq<real>)
    requires order < |taps| == |next| && order <= |mirrored| && order < |column|
  {
    Dot(next, column, order + 1) == Dot(taps, column, order) + k * Dot(mirrored, column, order) + k * column[order]
  }

  lemma ReflectedSum(taps: seq<real>, mirrored: seq<real>, order: nat, k: real, next: seq<real>, column: seq<real>)
    requires order < |taps| == |next| && order <= |mirrored| && order < |column|
    requires forall j | 0 <= j < order :: mirrored[j] == taps[order - 1 - j]
    requires Reflected(taps, order, k, next)
    ensures SumsOver(taps, mirrored, order, k, next, column)
  {
    DotCombined(taps, k, mirrored, next, column, order);
  }

  lemma ShorterLags(taps: seq<real>, r: seq<real>, i: nat, order: nat)
    requires i <= order < |r| && order <= |taps|
    ensures Dot(taps, Lags(r, i, order + 1), order) == Dot(taps, Lags(r, i, order), order)
  {
    DotAgrees(taps, Lags(r, i, order + 1), taps, Lags(r, i, order), order);
  }

  /** One step of the recursion: taps that answer the Toeplitz system of one order become,
      once reflected, taps that answer the system of the next, with what is left shrunk by
      the square of the reflection. */
  lemma OrderByOrder(taps: seq<real>, order: nat, r: seq<real>, k: real, next: seq<real>)
    requires order < |taps| == |next| && order + 1 < |r|
    requires Predicts(taps, order, r)
    requires Reflected(taps, order, k, next)
    requires k * Left(taps, order, r) == -(r[order + 1] + Row(taps, order, order, r))
    ensures Predicts(next, order + 1, r)
    ensures Left(next, order + 1, r) == Left(taps, order, r) - k * k * Left(taps, order, r)
  {
    var mirrored := seq(order, j requires 0 <= j < order => taps[order - 1 - j]);
    var longer := order + 1;
    forall i | 0 <= i < longer
      ensures Row(next, i, longer, r) == -r[i + 1]
    {
      ReflectedSum(taps, mirrored, order, k, next, Lags(r, i, longer));
      if i < order {
        EarlierRow(taps, mirrored, order, r, k, next, i);
      } else {
        LastRow(taps, mirrored, order, r, k, next);
      }
    }
    ReflectedSum(taps, mirrored, order, k, next, r[1..]);
    WhatIsLeft(taps, mirrored, order, r, k, next);
  }

  lemma EarlierRow(taps: seq<real>, mirrored: seq<real>, order: nat, r: seq<real>, k: real, next: seq<real>, i: nat)
    requires i < order < |taps| == |next| && order + 1 < |r| && order <= |mirrored|
    requires forall j | 0 <= j < order :: mirrored[j] == taps[order - 1 - j]
    requires Predicts(taps, order, r)
    requires SumsOver(taps, mirrored, order, k, next, Lags(r, i, order + 1))
    ensures Row(next, i, order + 1, r) == -r[i + 1]
  {
    var column := Lags(r, i, order + 1);
    ShorterLags(taps, r, i, order);
    ShorterLags(mirrored, r, i, order);
    MirroredRow(taps, mirrored, order, r, i);
    var opposite := order - 1 - i;
    assert Row(taps, opposite, order, r) == -r[opposite + 1] && Row(taps, i, order, r) == -r[i + 1];
    assert column[order] == r[opposite + 1];
    Factored(k, Dot(mirrored, column, order), column[order]);
  }

  lemma LastRow(taps: seq<real>, mirrored: seq<real>, order: nat, r: seq<real>, k: real, next: seq<real>)
    requires order < |taps| == |next| && order + 1 < |r| && order <= |mirrored|
    requires forall j | 0 <= j < order :: mirrored[j] == taps[order - 1 - j]
    requires SumsOver(taps, mirrored, order, k, next, Lags(r, order, order + 1))
    requires k * Left(taps, order, r) == -(r[order + 1] + Row(taps, order, order, r))
    ensures Row(next, order, order + 1, r) == -r[order + 1]
  {
    var column := Lags(r, order, order + 1);
    ShorterLags(taps, r, order, order);
    ShorterLags(mirrored, r, order, order);
    MirroredBelow(taps, mirrored, order, r);
    Closes(k, Dot(taps, column, order), Dot(mirrored, column, order), column[order],
      Left(taps, order, r), r[order + 1]);
  }

  lemma WhatIsLeft(taps: seq<real>, mirrored: seq<real>, order: nat, r: seq<real>, k: real, next: seq<real>)
    requires order < |taps| == |next| && order + 1 < |r| && order <= |mirrored|
    requires forall j | 0 <= j < order :: mirrored[j] == taps[order - 1 - j]
    requires SumsOver(taps, mirrored, order, k, next, r[1..])
    requires k * Left(taps, order, r) == -(r[order + 1] + Row(taps, order, order, r))
    ensures Left(next, order + 1, r) == Left(taps, order, r) - k * k * Left(taps, order, r)
  {
    var later := r[1..];
    MirroredBelow(taps, mirrored, order, r);
    Shrunk(k, Dot(mirrored, later, order), later[order], Left(taps, order, r));
  }

  lemma Closes(k: real, base: real, one: real, other: real, left: real, wanted: real)
    requires k * left == -(wanted + base)
    requires one + other == left
    ensures base + k * one + k * other == -wanted
  {
    Factored(k, one, other);
  }

  lemma Shrunk(k: real, one: real, other: real, left: real)
    requires k * left == -(one + other)
    ensures k * one + k * other == -(k * k * left)
  {
    calc {
      k * one + k * other;
      k * (one + other);
      k * -(k * left);
    }
  }

  /** Levinson's recursion, for a correlation of any length. Every order that was completed
      answers its Toeplitz system, the taps beyond it are silent, and the recursion stops
      short only where so little is left that dividing by it again is refused. */
  method Levinson(r: seq<real>, order: nat) returns (lpc: array<real>, ghost done: nat)
    requires |r| == order + 1
    ensures fresh(lpc) && lpc.Length == order && done <= order
    ensures Predicts(lpc[..], done, r)
    ensures forall j | done <= j < order :: lpc[j] == 0.0
    ensures r[0] <= SILENT_AT_MOST ==> done == 0
    ensures done < order ==> r[0] <= SILENT_AT_MOST || Left(lpc[..], done, r) < r[0] * STOPS_UNDER
  {
    lpc := new real[order](_ => 0.0);
    done := 0;
    var error := r[0];
    if r[0] <= SILENT_AT_MOST {
      return;
    }
    var at := 0;
    while at < order
      invariant 0 <= at == done <= order
      invariant Predicts(lpc[..], at, r)
      invariant error == Left(lpc[..], at, r)
      invariant at < order ==> error >= r[0] * STOPS_UNDER
      invariant forall j | at <= j < order :: lpc[j] == 0.0
    {
      var reflected := ReflectedAt(lpc, at, r);
      var reflection := -reflected / error;
      ghost var before := lpc[..];
      Reflect(lpc, at, reflection);
      assert reflection * error == -reflected;
      OrderByOrder(before, at, r, reflection, lpc[..]);
      error := error - reflection * reflection * error;
      at := at + 1;
      done := at;
      if error < r[0] * STOPS_UNDER {
        break;
      }
    }
  }

  /** What the taps so far leave unexplained one lag further on. */
  method ReflectedAt(lpc: array<real>, order: nat, r: seq<real>) returns (reflected: real)
    requires order <= lpc.Length && order + 1 < |r|
    ensures reflected == r[order + 1] + Dot(lpc[..], Lags(r, order, order), order)
  {
    var sum := 0.0;
    for nth := 0 to order
      invariant sum == Dot(lpc[..], Lags(r, order, order), nth)
    {
      sum := sum + lpc[nth] * r[order - nth];
    }
    reflected := r[order + 1] + sum;
  }

  /** The symmetric update in place, two taps at a time from the ends towards the middle. */
  method Reflect(lpc: array<real>, order: nat, reflection: real)
    requires order < lpc.Length
    modifies lpc
    ensures Reflected(old(lpc[..]), order, reflection, lpc[..])
    ensures forall j | order < j < lpc.Length :: lpc[j] == old(lpc[j])
  {
    lpc[order] := reflection;
    for nth := 0 to (order + 1) / 2
      invariant lpc[order] == reflection && forall j | order < j < lpc.Length :: lpc[j] == old(lpc[j])
      invariant forall j | nth <= j < order - nth :: lpc[j] == old(lpc[j])
      invariant forall j | 0 <= j < order && !(nth <= j < order - nth) ::
        lpc[j] == Added(old(lpc[j]), reflection, old(lpc[order - 1 - j]))
    {
      var one, other := lpc[nth], lpc[order - 1 - nth];
      lpc[nth] := Added(one, reflection, other);
      lpc[order - 1 - nth] := Added(other, reflection, one);
    }
  }

  // ---------------------------------------------------------------- energies as they slide

  /** The squares of so many samples from one on. */
  function Energy(signal: seq<real>, from: nat, length: nat): (energy: real)
    requires from + length <= |signal|
  {
    Squares(signal, from, length)
  }

  function Squares(signal: seq<real>, from: nat, length: nat): (sum: real)
    requires from + length <= |signal|
    decreases length
  {
    if length == 0 then 0.0 else Squares(signal, from, length - 1) + Squared(signal[from + length - 1])
  }

  function Squared(x: real): (square: real) {
    x * x
  }

  lemma SquareNotNegative(x: real)
    ensures Squared(x) >= 0.0
  {
  }

  lemma {:induction false} EnergyNotNegative(signal: seq<real>, from: nat, length: nat)
    requires from + length <= |signal|
    ensures Energy(signal, from, length) >= 0.0
    decreases length
  {
    if length > 0 {
      EnergyNotNegative(signal, from, length - 1);
      SquareNotNegative(signal[from + length - 1]);
    }
  }

  lemma {:induction false} FirstOfEnergy(signal: seq<real>, from: nat, length: nat)
    requires 0 < length && from + length <= |signal|
    ensures Energy(signal, from, length) == Squared(signal[from]) + Energy(signal, from + 1, length - 1)
    decreases length
  {
    assert Energy(signal, from, length) == Energy(signal, from, length - 1) + Squared(signal[from + length - 1]);
    if length > 1 {
      FirstOfEnergy(signal, from, length - 1);
    } else {
      assert Energy(signal, from, 0) == 0.0 == Energy(signal, from + 1, 0);
    }
  }

  /** One place on, one sample has left and one has entered. */
  lemma Slides(signal: seq<real>, from: nat, length: nat)
    requires from + length < |signal|
    ensures Energy(signal, from + 1, length)
      == Energy(signal, from, length) + Squared(signal[from + length]) - Squared(signal[from])
  {
    FirstOfEnergy(signal, from, length + 1);
    assert Energy(signal, from, length + 1) == Energy(signal, from, length) + Squared(signal[from + length]);
  }

  /** The energy of every stretch so far back as the longest lag, each from the one before it. */
  method EnergiesBack(signal: seq<real>, longest: nat, length: nat) returns (lookup: seq<real>)
    requires longest + length <= |signal|
    ensures |lookup| == longest + 1
    ensures forall lag | 0 <= lag <= longest :: lookup[lag] == Energy(signal, longest - lag, length)
  {
    var energy := Energy(signal, longest, length);
    lookup := [energy];
    for lag := 1 to longest + 1
      invariant |lookup| == lag && energy == Energy(signal, longest - (lag - 1), length)
      invariant forall before | 0 <= before < lag :: lookup[before] == Energy(signal, longest - before, length)
    {
      Slides(signal, longest - lag, length);
      EnergyNotNegative(signal, longest - lag, length);
      energy := energy + (Squared(signal[longest - lag]) - Squared(signal[longest + length - lag]));
      lookup := lookup + [Max(energy, 0.0)];
    }
  }

  // ---------------------------------------------------------------- the best two lags

  const SCALED_BY := 0.000000000001

  /** How well a lag correlates for the energy there is. */
  function Worth(correlation: real, energy: real): (worth: real)
    requires energy > 0.0
  {
    Squared(correlation * SCALED_BY) / energy
  }

  /** Which of two is worth more is told without dividing. */
  lemma ToldByProducts(one: real, oneEnergy: real, other: real, otherEnergy: real)
    requires oneEnergy > 0.0 && otherEnergy > 0.0
    ensures one * otherEnergy > other * oneEnergy <==> one / oneEnergy > other / otherEnergy
  {
    var first, second := one / oneEnergy, other / otherEnergy;
    assert one == first * oneEnergy && other == second * otherEnergy;
    var both := oneEnergy * otherEnergy;
    assert both > 0.0;
    assert one * otherEnergy == first * both && other * oneEnergy == second * both;
    Bigger(first, second, both);
  }

  lemma Bigger(one: real, other: real, times: real)
    requires times > 0.0
    ensures one * times > other * times <==> one > other
  {
    if one > other {
      assert (one - other) * times > 0.0;
    } else {
      assert (other - one) * times >= 0.0;
    }
  }

  /** What a lag is worth, the energy never under one; nothing where it does not correlate. */
  function WorthAt(correlations: seq<real>, signal: seq<real>, length: nat, lag: nat): (worth: real)
    requires lag < |correlations| && lag + length <= |signal|
  {
    EnergyNotNegative(signal, lag, length);
    if correlations[lag] > 0.0 then Worth(correlations[lag], 1.0 + Energy(signal, lag, length)) else -1.0
  }

  function Worths(correlations: seq<real>, signal: seq<real>, length: nat): (worths: seq<real>)
    requires |correlations| + length <= |signal|
    ensures |worths| == |correlations|
    ensures forall lag {:trigger worths[lag]} | 0 <= lag < |worths| ::
      worths[lag] == WorthAt(correlations, signal, length, lag)
  {
    seq(|correlations|, lag requires 0 <= lag < |correlations| => WorthAt(correlations, signal, length, lag))
  }

  /** The best of the first so many and the best of the others among them: the earlier where they
      are worth the same. Of none they are the first two there are, and of one the second is the
      first there is. */
  ghost predicate BestTwo(worths: seq<real>, upto: nat, best: nat, second: nat)
    requires upto <= |worths|
  {
    var some := exists lag | 0 <= lag < upto :: worths[lag] >= 0.0;
    && (!some ==> best == 0 && second == 1)
    && (some ==> IsBest(worths, upto, upto, best))
    && (some && (forall lag | 0 <= lag < upto :: lag == best || worths[lag] < 0.0) ==> second == 0)
    && (some && (exists lag | 0 <= lag < upto :: lag != best && worths[lag] >= 0.0) ==>
          second != best && IsBest(worths, upto, best, second))
  }

  /** The best of the first so many but for one of them. */
  ghost predicate IsBest(worths: seq<real>, upto: nat, but: nat, best: nat)
    requires upto <= |worths|
  {
    && best < upto && worths[best] >= 0.0
    && (forall lag | 0 <= lag < upto && lag != but :: worths[lag] <= worths[best])
    && (forall lag | 0 <= lag < best && lag != but :: worths[lag] < worths[best])
  }

  /** How the two are held: a worth as a numerator and a denominator, and one under every worth
      where there is none yet. */
  ghost predicate HeldAs(worths: seq<real>, lag: nat, numerator: real, denominator: real, some: bool) {
    if some then denominator > 0.0 && lag < |worths| && worths[lag] == numerator / denominator
    else numerator == -1.0 && denominator == 0.0
  }

  ghost predicate Some(worths: seq<real>, upto: nat, but: nat)
    requires upto <= |worths|
  {
    exists lag | 0 <= lag < upto && lag != but :: worths[lag] >= 0.0
  }

  lemma WorthNotNegative(correlation: real, energy: real)
    requires energy > 0.0
    ensures Worth(correlation, energy) >= 0.0
  {
    SquareNotNegative(correlation * SCALED_BY);
  }

  /** Whether a numerator and an energy beat what is held. */
  predicate Beats(numerator: real, energy: real, held: real, heldEnergy: real) {
    numerator * heldEnergy > held * energy
  }

  lemma BeatsHeld(
    worths: seq<real>, worth: real, numerator: real, energy: real, lag: nat, held: real, heldEnergy: real,
    some: bool)
    requires energy > 0.0 && numerator >= 0.0 && worth == numerator / energy
    requires HeldAs(worths, lag, held, heldEnergy, some)
    ensures Beats(numerator, energy, held, heldEnergy) <==> !some || worth > worths[lag]
  {
    if some {
      ToldByProducts(numerator, energy, held, heldEnergy);
    }
  }

  method BestOf(correlations: seq<real>, signal: seq<real>, length: nat) returns (best: nat, second: nat)
    requires |correlations| + length <= |signal|
    ensures BestTwo(Worths(correlations, signal, length), |correlations|, best, second)
  {
    ghost var worths := Worths(correlations, signal, length);
    var energy := 1.0 + Energy(signal, 0, length);
    var numerator, denominator, numerator2, denominator2 := -1.0, 0.0, -1.0, 0.0;
    best, second := 0, 1;
    for lag := 0 to |correlations|
      invariant energy == 1.0 + Energy(signal, lag, length)
      invariant Ranked(worths, lag, best, second)
      invariant HeldAs(worths, best, numerator, denominator, Some(worths, lag, lag))
      invariant HeldAs(worths, second, numerator2, denominator2, Some(worths, lag, lag) && Some(worths, lag, best))
    {
      EnergyNotNegative(signal, lag, length);
      ghost var was, was2 := best, second;
      if correlations[lag] > 0.0 {
        var here := Squared(correlations[lag] * SCALED_BY);
        SquareNotNegative(correlations[lag] * SCALED_BY);
        WorthNotNegative(correlations[lag], energy);
        assert worths[lag] == here / energy;
        BeatsHeld(worths, worths[lag], here, energy, best, numerator, denominator, Some(worths, lag, lag));
        BeatsHeld(
          worths, worths[lag], here, energy, second, numerator2, denominator2,
          Some(worths, lag, lag) && Some(worths, lag, best));
        if Beats(here, energy, numerator2, denominator2) {
          if Beats(here, energy, numerator, denominator) {
            numerator2, denominator2, second := numerator, denominator, best;
            numerator, denominator, best := here, energy, lag;
          } else {
            numerator2, denominator2, second := here, energy, lag;
          }
        }
      }
      OneLagOn(worths, lag, was, was2, best, second);
      EnergyNotNegative(signal, lag + 1, length);
      Slides(signal, lag, length);
      energy := Max(energy + (Squared(signal[lag + length]) - Squared(signal[lag])), 1.0);
    }
    assert Look(TheBest, 0);
  }

  ghost predicate Ranked(worths: seq<real>, upto: nat, best: nat, second: nat)
    requires upto <= |worths|
  {
    forall fold: nat {:trigger Look(TheBest, fold)} | Look(TheBest, fold) :: BestTwo(worths, upto, best, second)
  }

  lemma OneLagOn(worths: seq<real>, lag: nat, was: nat, was2: nat, best: nat, second: nat)
    requires lag < |worths| && Ranked(worths, lag, was, was2)
    requires worths[lag] < 0.0 ==> best == was && second == was2
    requires worths[lag] >= 0.0 ==>
      var some, two := Some(worths, lag, lag), Some(worths, lag, lag) && Some(worths, lag, was);
      if !two || (was2 < |worths| && worths[lag] > worths[was2]) then
        if !some || (was < |worths| && worths[lag] > worths[was]) then best == lag && second == was
        else best == was && second == lag
      else best == was && second == was2
    ensures Ranked(worths, lag + 1, best, second)
  {
    assert Look(TheBest, 0);
  }
}
