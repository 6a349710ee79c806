/** Tones and the covers that hold them: what share of a tone at each point passes each
    cover, kept point by point and again cover by cover, and the bound that weights on the
    covers put on every mix of tones their prices allow. */
module Tones {
  import opened Vectors
  import opened Matrices
  import opened Wrappers

  /** A cover's shares from the first point it reaches to the last. */
  datatype Reach = Reach(first: nat, shares: seq<real>)

  function ReachedAt(reach: Reach, point: nat): real {
    if reach.first <= point < reach.first + |reach.shares| then reach.shares[point - reach.first] else 0.0
  }

  /** One point's shares as a row over every cover. */
  function Scattered(entries: seq<(nat, real)>, covers: nat): (row: seq<real>)
    requires forall k | 0 <= k < |entries| :: entries[k].0 < covers
    ensures |row| == covers
    ensures (forall k | 0 <= k < |entries| :: entries[k].1 >= 0.0) ==> forall c | 0 <= c < covers :: row[c] >= 0.0
  {
    if entries == [] then Zeros(covers)
    else
      var (cover, share) := entries[|entries| - 1];
      var before := Scattered(entries[..|entries| - 1], covers);
      before[cover := before[cover] + share]
  }

  lemma {:induction false} Unlisted(entries: seq<(nat, real)>, covers: nat, cover: nat)
    requires forall k | 0 <= k < |entries| :: entries[k].0 < covers && entries[k].0 != cover
    requires cover < covers
    ensures Scattered(entries, covers)[cover] == 0.0
  {
    if entries != [] {
      Unlisted(entries[..|entries| - 1], covers, cover);
    }
  }

  /** The ranges of one list that belong to each point, and no cover twice in any of them. */
  ghost predicate Ranged(starts: seq<nat>, passed: seq<(nat, real)>, covers: nat) {
    && |starts| > 0
    && (forall p | 0 <= p < |starts| - 1 :: starts[p] <= starts[p + 1])
    && (forall p | 0 <= p < |starts| :: starts[p] <= |passed|)
    && (forall k | 0 <= k < |passed| :: passed[k].0 < covers && passed[k].1 > 0.0)
    && (forall p, j, k | 0 <= p < |starts| - 1 && starts[p] <= j < k < starts[p + 1] :: passed[j].0 != passed[k].0)
  }

  function PassedAt(starts: seq<nat>, passed: seq<(nat, real)>, point: nat): (entries: seq<(nat, real)>)
    requires point + 1 < |starts| && starts[point] <= starts[point + 1] <= |passed|
  {
    passed[starts[point]..starts[point + 1]]
  }

  function ShareRow(starts: seq<nat>, passed: seq<(nat, real)>, covers: nat, point: nat): (row: seq<real>)
    requires point + 1 < |starts| && starts[point] <= starts[point + 1] <= |passed|
    requires forall k | 0 <= k < |passed| :: passed[k].0 < covers
    ensures |row| == covers
  {
    Scattered(PassedAt(starts, passed, point), covers)
  }

  // ---------------------------------------------------------------- cover by cover

  function LookedUp(listed: seq<(nat, real)>, point: nat): real {
    if listed == [] then 0.0
    else if listed[|listed| - 1].0 == point then listed[|listed| - 1].1
    else LookedUp(listed[..|listed| - 1], point)
  }

  ghost predicate Rising(listed: seq<(nat, real)>) {
    forall j, k | 0 <= j < k < |listed| :: listed[j].0 < listed[k].0
  }

  lemma {:induction false} LookedUpOutside(listed: seq<(nat, real)>, point: nat)
    requires forall k | 0 <= k < |listed| :: listed[k].0 != point
    ensures LookedUp(listed, point) == 0.0
  {
    if listed != [] {
      LookedUpOutside(listed[..|listed| - 1], point);
    }
  }

  /** One cover's list laid out densely between the first point it names and the last. */
  method LaidOut(reached: seq<(nat, real)>) returns (reach: Reach)
    requires Rising(reached)
    ensures forall p :: ReachedAt(reach, p) == LookedUp(reached, p)
    ensures reached == [] ==> reach == Reach(0, [])
    ensures reached != [] ==> reach.first + |reach.shares| == reached[|reached| - 1].0 + 1
  {
    if reached == [] {
      return Reach(0, []);
    }
    var first, last := reached[0].0, reached[|reached| - 1].0;
    var shares := new real[last - first + 1](_ => 0.0);
    for k := 0 to |reached|
      invariant forall p | first <= p <= last :: shares[p - first] == LookedUp(reached[..k], p)
    {
      assert reached[..k + 1][..k] == reached[..k];
      shares[reached[k].0 - first] := reached[k].1;
    }
    assert reached[..|reached|] == reached;
    reach := Reach(first, shares[..]);
    forall p ensures ReachedAt(reach, p) == LookedUp(reached, p) {
      if !(first <= p <= last) {
        LookedUpOutside(reached, p);
      }
    }
  }

  /** What one cover's list holds once the points before `point` and the first `taken`
      entries of that point are listed. */
  ghost predicate ListedSoFar(
    starts: seq<nat>, passed: seq<(nat, real)>, covers: nat, listed: seq<(nat, real)>, cover: nat, point: nat,
    taken: nat)
    requires Ranged(starts, passed, covers) && cover < covers && point + 1 < |starts|
    requires taken <= starts[point + 1] - starts[point]
  {
    && Rising(listed) && (forall k | 0 <= k < |listed| :: listed[k].0 <= point)
    && (LookedUp(listed, point) == 0.0 ==> forall k | 0 <= k < |listed| :: listed[k].0 < point)
    && ListedBefore(starts, passed, covers, listed, cover, point)
    && LookedUp(listed, point) == Scattered(PassedAt(starts, passed, point)[..taken], covers)[cover]
  }

  ghost predicate ListedBefore(
    starts: seq<nat>, passed: seq<(nat, real)>, covers: nat, listed: seq<(nat, real)>, cover: nat, point: nat)
    requires Ranged(starts, passed, covers) && cover < covers && point < |starts|
  {
    forall p | 0 <= p < point :: LookedUp(listed, p) == ShareRow(starts, passed, covers, p)[cover]
  }

  lemma Appended(
    starts: seq<nat>, passed: seq<(nat, real)>, covers: nat, listed: seq<(nat, real)>, cover: nat, point: nat,
    share: real)
    requires Ranged(starts, passed, covers) && cover < covers && point + 1 < |starts|
    requires Rising(listed) && forall k | 0 <= k < |listed| :: listed[k].0 < point
    requires ListedBefore(starts, passed, covers, listed, cover, point)
    ensures Rising(listed + [(point, share)])
    ensures ListedBefore(starts, passed, covers, listed + [(point, share)], cover, point)
    ensures LookedUp(listed + [(point, share)], point) == share
  {
    var next := listed + [(point, share)];
    assert next[..|listed|] == listed;
    forall p | 0 <= p < point ensures LookedUp(next, p) == LookedUp(listed, p) {
    }
  }

  lemma ScatteredMore(entries: seq<(nat, real)>, covers: nat, taken: nat, cover: nat)
    requires forall k | 0 <= k < |entries| :: entries[k].0 < covers
    requires taken < |entries| && cover < covers
    ensures Scattered(entries[..taken + 1], covers)[cover]
         == Scattered(entries[..taken], covers)[cover] + if entries[taken].0 == cover then entries[taken].1 else 0.0
  {
    assert entries[..taken + 1][..taken] == entries[..taken];
  }

  lemma NotYet(
    starts: seq<nat>, passed: seq<(nat, real)>, covers: nat, point: nat, taken: nat, cover: nat)
    requires Ranged(starts, passed, covers) && cover < covers && point + 1 < |starts|
    requires taken < starts[point + 1] - starts[point] && passed[starts[point] + taken].0 == cover
    ensures Scattered(PassedAt(starts, passed, point)[..taken], covers)[cover] == 0.0
  {
    var before := PassedAt(starts, passed, point)[..taken];
    forall k | 0 <= k < |before| ensures before[k].0 < covers && before[k].0 != cover {
      var i, j := starts[point] + k, starts[point] + taken;
      assert before[k] == passed[i];
      assert passed[i].0 != passed[j].0;
    }
    Unlisted(before, covers, cover);
  }

  /** The list of a cover after one more entry of a point, whichever cover it names. */
  function WithEntry(listed: seq<(nat, real)>, cover: nat, point: nat, entry: (nat, real)): seq<(nat, real)> {
    if entry.0 == cover then listed + [(point, entry.1)] else listed
  }

  lemma ListedOneMore(
    starts: seq<nat>, passed: seq<(nat, real)>, covers: nat, listed: seq<(nat, real)>, cover: nat, point: nat,
    taken: nat)
    requires Ranged(starts, passed, covers) && cover < covers && point + 1 < |starts|
    requires taken < starts[point + 1] - starts[point]
    requires ListedSoFar(starts, passed, covers, listed, cover, point, taken)
    ensures ListedSoFar(starts, passed, covers,
      WithEntry(listed, cover, point, passed[starts[point] + taken]), cover, point, taken + 1)
  {
    var entry := passed[starts[point] + taken];
    assert entry == PassedAt(starts, passed, point)[taken];
    ScatteredMore(PassedAt(starts, passed, point), covers, taken, cover);
    if entry.0 == cover {
      NotYet(starts, passed, covers, point, taken, cover);
      Appended(starts, passed, covers, listed, cover, point, entry.1);
    }
  }

  lemma ListedOnward(
    starts: seq<nat>, passed: seq<(nat, real)>, covers: nat, listed: seq<(nat, real)>, cover: nat, point: nat)
    requires Ranged(starts, passed, covers) && cover < covers && point + 2 < |starts|
    requires ListedSoFar(starts, passed, covers, listed, cover, point, starts[point + 1] - starts[point])
    ensures ListedSoFar(starts, passed, covers, listed, cover, point + 1, 0)
  {
    var entries := PassedAt(starts, passed, point);
    assert entries[..starts[point + 1] - starts[point]] == entries;
    LookedUpOutside(listed, point + 1);
    forall p | 0 <= p < point + 1
      ensures LookedUp(listed, p) == ShareRow(starts, passed, covers, p)[cover]
    {
    }
  }

  /** Both forms of the shares agree: what a cover's reach holds at a point is what the
      point's own list holds of the cover. */
  ghost predicate Agrees(reach: Reach, starts: seq<nat>, passed: seq<(nat, real)>, covers: nat, cover: nat)
    requires Ranged(starts, passed, covers) && cover < covers
  {
    && reach.first + |reach.shares| <= |starts| - 1
    && forall p | 0 <= p < |starts| - 1 :: ReachedAt(reach, p) == ShareRow(starts, passed, covers, p)[cover]
  }

  /** The entries of one point added to the list of each cover they name. */
  method ListPoint(starts: seq<nat>, passed: seq<(nat, real)>, covers: nat, point: nat, listed: array<seq<(nat, real)>>)
    requires Ranged(starts, passed, covers) && point + 1 < |starts| && listed.Length == covers
    requires forall c | 0 <= c < covers :: ListedSoFar(starts, passed, covers, listed[c], c, point, 0)
    modifies listed
    ensures forall c | 0 <= c < covers ::
      ListedSoFar(starts, passed, covers, listed[c], c, point, starts[point + 1] - starts[point])
  {
    for taken := 0 to starts[point + 1] - starts[point]
      invariant forall c | 0 <= c < covers :: ListedSoFar(starts, passed, covers, listed[c], c, point, taken)
    {
      var (cover, share) := passed[starts[point] + taken];
      ghost var before := listed[..];
      listed[cover] := listed[cover] + [(point, share)];
      forall c | 0 <= c < covers ensures ListedSoFar(starts, passed, covers, listed[c], c, point, taken + 1) {
        ListedOneMore(starts, passed, covers, before[c], c, point, taken);
      }
    }
  }

  /** The reach of each cover, gathered from the lists of every point. */
  method OfEach(starts: seq<nat>, passed: seq<(nat, real)>, covers: nat) returns (reaches: seq<Reach>)
    requires Ranged(starts, passed, covers) && |starts| >= 2
    ensures |reaches| == covers
    ensures forall c | 0 <= c < covers :: Agrees(reaches[c], starts, passed, covers, c)
  {
    var listed := new seq<(nat, real)>[covers](_ => []);
    var last := |starts| - 2;
    for point := 0 to last
      invariant forall c | 0 <= c < covers :: ListedSoFar(starts, passed, covers, listed[c], c, point, 0)
    {
      ListPoint(starts, passed, covers, point, listed);
      forall c | 0 <= c < covers {
        ListedOnward(starts, passed, covers, listed[c], c, point);
      }
    }
    ListPoint(starts, passed, covers, last, listed);
    reaches := LaidOutEach(starts, passed, covers, last, listed[..]);
  }

  method LaidOutEach(starts: seq<nat>, passed: seq<(nat, real)>, covers: nat, last: nat, lists: seq<seq<(nat, real)>>)
    returns (reaches: seq<Reach>)
    requires Ranged(starts, passed, covers) && |starts| == last + 2 && |lists| == covers
    requires forall c | 0 <= c < covers ::
      ListedSoFar(starts, passed, covers, lists[c], c, last, starts[last + 1] - starts[last])
    ensures |reaches| == covers
    ensures forall c | 0 <= c < covers :: Agrees(reaches[c], starts, passed, covers, c)
  {
    reaches := [];
    for c := 0 to covers
      invariant |reaches| == c
      invariant forall d | 0 <= d < c :: Agrees(reaches[d], starts, passed, covers, d)
    {
      var reach := LaidOutOne(starts, passed, covers, last, lists[c], c);
      reaches := reaches + [reach];
    }
  }

  method LaidOutOne(
    starts: seq<nat>, passed: seq<(nat, real)>, covers: nat, last: nat, list: seq<(nat, real)>, cover: nat)
    returns (reach: Reach)
    requires Ranged(starts, passed, covers) && |starts| == last + 2 && cover < covers
    requires ListedSoFar(starts, passed, covers, list, cover, last, starts[last + 1] - starts[last])
    ensures Agrees(reach, starts, passed, covers, cover)
  {
    reach := LaidOut(list);
    LaidOutAgrees(starts, passed, covers, list, cover, last, reach);
  }

  lemma LaidOutAgrees(
    starts: seq<nat>, passed: seq<(nat, real)>, covers: nat, listed: seq<(nat, real)>, cover: nat, last: nat,
    reach: Reach)
    requires Ranged(starts, passed, covers) && cover < covers && |starts| == last + 2
    requires ListedSoFar(starts, passed, covers, listed, cover, last, starts[last + 1] - starts[last])
    requires forall p :: ReachedAt(reach, p) == LookedUp(listed, p)
    requires listed == [] ==> reach == Reach(0, [])
    requires listed != [] ==> reach.first + |reach.shares| == listed[|listed| - 1].0 + 1
    ensures Agrees(reach, starts, passed, covers, cover)
  {
    var entries := PassedAt(starts, passed, last);
    assert entries[..starts[last + 1] - starts[last]] == entries;
    forall p | 0 <= p < |starts| - 1
      ensures ReachedAt(reach, p) == ShareRow(starts, passed, covers, p)[cover]
    {
      assert p < last || p == last;
    }
  }

  // ---------------------------------------------------------------- what prices allow

  datatype Tones = Tones(covers: nat, starts: seq<nat>, passed: seq<(nat, real)>, reaches: seq<Reach>) {

    ghost predicate Valid() {
      && Ranged(starts, passed, covers) && |starts| >= 2 && |reaches| == covers
      && forall c | 0 <= c < covers :: Agrees(reaches[c], starts, passed, covers, c)
    }

    function Points(): (points: nat)
      requires |starts| > 0
    {
      |starts| - 1
    }

    /** The shares as a matrix: a row for every point, a column for every cover. */
    ghost function Shares(): (rows: Matrix)
      requires Valid()
      ensures |rows| == Points() && Even(rows, covers)
      ensures forall p | 0 <= p < Points() :: rows[p] == ShareRow(starts, passed, covers, p)
    {
      seq(Points(), p requires 0 <= p < Points() => ShareRow(starts, passed, covers, p))
    }

    /** How much of a mix of tones each cover holds. */
    ghost function Held(mix: seq<real>): (held: seq<real>)
      requires Valid() && |mix| == Points()
      ensures |held| == covers
    {
      Against(Shares(), covers, mix, Points())
    }

    /** A mix that no cover with a price holds more of than that price. */
    ghost predicate Allowed(prices: seq<real>, mix: seq<real>)
      requires Valid() && |prices| == covers
    {
      && |mix| == Points() && (forall p | 0 <= p < |mix| :: mix[p] >= 0.0)
      && forall c | 0 <= c < covers && prices[c] > 0.0 :: Held(mix)[c] <= prices[c]
    }

    /** What a mix comes to, each tone at its own gain. */
    ghost function Sounding(apart: seq<real>, mix: seq<real>): real
      requires Valid() && |apart| == |mix| == Points()
    {
      Dot(mix, apart, Points())
    }

    /** No mix the prices allow sounds louder. */
    ghost predicate Bounds(prices: seq<real>, apart: seq<real>, bound: real)
      requires Valid() && |prices| == covers && |apart| == Points()
    {
      forall mix | Allowed(prices, mix) :: Sounding(apart, mix) <= bound
    }
  }

  /** At one point, the scale makes enough of what is covered. */
  ghost predicate Enough(apart: seq<real>, scale: real, covered: seq<real>, p: nat)
    requires p < |apart| == |covered|
  {
    apart[p] <= scale * covered[p]
  }

  ghost predicate EnoughEverywhere(apart: seq<real>, scale: real, covered: seq<real>) {
    |apart| == |covered| && forall p | 0 <= p < |apart| :: Enough(apart, scale, covered, p)
  }

  lemma {:induction false} EnoughForAll(mix: seq<real>, apart: seq<real>, scale: real, covered: seq<real>, n: nat)
    requires n <= |mix| && n <= |apart| == |covered|
    requires forall p | 0 <= p < n :: mix[p] >= 0.0
    requires EnoughEverywhere(apart, scale, covered)
    ensures Dot(mix, apart, n) <= scale * Dot(mix, covered, n)
  {
    if n > 0 {
      var p := n - 1;
      EnoughForAll(mix, apart, scale, covered, p);
      assert Enough(apart, scale, covered, p);
      EnoughForOne(mix[p], apart[p], scale, covered[p], Dot(mix, covered, p));
    }
  }

  lemma EnoughForOne(tone: real, wanted: real, scale: real, given: real, before: real)
    requires tone >= 0.0 && wanted <= scale * given
    ensures scale * before + tone * wanted <= scale * (before + tone * given)
  {
    Weighed(tone, wanted, scale * given);
    assert tone * (scale * given) == scale * (tone * given);
  }

  /** Weights on the covers, none negative and none on a cover without a price, scaled until
      they cover every gain, pay for whatever the prices allow. */
  lemma WeightsBound(
    tones: Tones, kept: seq<real>, prices: seq<real>, apart: seq<real>, scale: real, covers: nat, points: nat)
    requires tones.Valid() && tones.covers == covers == |kept| == |prices| && tones.Points() == points == |apart|
    requires forall c | 0 <= c < covers :: kept[c] >= 0.0 && (kept[c] > 0.0 ==> prices[c] > 0.0)
    requires scale >= 0.0
    requires EnoughEverywhere(apart, scale, Modelled(tones.Shares(), covers, kept))
    ensures tones.Bounds(prices, apart, scale * Dot(kept, prices, covers))
  {
    forall mix | tones.Allowed(prices, mix)
      ensures tones.Sounding(apart, mix) <= scale * Dot(kept, prices, covers)
    {
      MixBound(tones, kept, prices, apart, scale, covers, points, mix);
    }
  }

  lemma MixBound(
    tones: Tones, kept: seq<real>, prices: seq<real>, apart: seq<real>, scale: real, covers: nat, points: nat,
    mix: seq<real>)
    requires tones.Valid() && tones.covers == covers == |kept| == |prices| && tones.Points() == points == |apart|
    requires forall c | 0 <= c < covers :: kept[c] >= 0.0 && (kept[c] > 0.0 ==> prices[c] > 0.0)
    requires scale >= 0.0 && tones.Allowed(prices, mix)
    requires EnoughEverywhere(apart, scale, Modelled(tones.Shares(), covers, kept))
    ensures Dot(mix, apart, points) <= scale * Dot(kept, prices, covers)
  {
    var covered := Modelled(tones.Shares(), covers, kept);
    EnoughForAll(mix, apart, scale, covered, points);
    HeldIsPaid(tones, kept, prices, mix, covers, points);
    AtMost(Dot(mix, apart, points), scale, Dot(mix, covered, points), Dot(kept, prices, covers));
  }

  lemma AtMost(sounding: real, scale: real, held: real, paid: real)
    requires scale >= 0.0 && sounding <= scale * held && held <= paid
    ensures sounding <= scale * paid
  {
    Weighed(scale, held, paid);
  }

  lemma HeldIsPaid(tones: Tones, kept: seq<real>, prices: seq<real>, mix: seq<real>, covers: nat, points: nat)
    requires tones.Valid() && tones.covers == covers == |kept| == |prices| && tones.Points() == points
    requires forall c | 0 <= c < covers :: kept[c] >= 0.0 && (kept[c] > 0.0 ==> prices[c] > 0.0)
    requires tones.Allowed(prices, mix)
    ensures Dot(mix, Modelled(tones.Shares(), covers, kept), points) <= Dot(kept, prices, covers)
  {
    SummedEitherWay(tones.Shares(), covers, mix, kept, points);
    DotCommutes(tones.Held(mix), kept, covers);
    DotWeighed(kept, tones.Held(mix), prices, covers);
  }

  // ---------------------------------------------------------------- paying

  /** A weight counts where both it and the price of its cover do. */
  ghost function KeptWeights(weights: seq<real>, prices: seq<real>): (kept: seq<real>)
    requires |weights| == |prices|
    ensures |kept| == |weights|
    ensures forall c | 0 <= c < |kept| :: kept[c] == if weights[c] <= 0.0 || prices[c] <= 0.0 then 0.0 else weights[c]
  {
    seq(|weights|, c requires 0 <= c < |weights| => if weights[c] <= 0.0 || prices[c] <= 0.0 then 0.0 else weights[c])
  }

  /** One cover's weight laid over the points it reaches. */
  method CoverOver(reach: Reach, weight: real, covered: array<real>)
    requires reach.first + |reach.shares| <= covered.Length
    modifies covered
    ensures forall p | 0 <= p < covered.Length :: covered[p] == Added(old(covered[p]), weight, ReachedAt(reach, p))
  {
    var first := reach.first;
    for k := 0 to |reach.shares|
      invariant forall p | 0 <= p < covered.Length ::
        covered[p] == if first <= p < first + k then Added(old(covered[p]), weight, reach.shares[p - first])
          else old(covered[p])
    {
      covered[first + k] := Added(covered[first + k], weight, reach.shares[k]);
    }
  }

  lemma EnoughMore(apart: seq<real>, scale: real, more: real, covered: seq<real>, p: nat)
    requires p < |apart| == |covered| && covered[p] >= 0.0 && scale <= more
    requires Enough(apart, scale, covered, p)
    ensures Enough(apart, more, covered, p)
  {
    Weighed(covered[p], scale, more);
  }

  lemma EnoughAt(apart: seq<real>, scale: real, covered: seq<real>, p: nat)
    requires p < |apart| == |covered| && covered[p] > 0.0 && scale == apart[p] / covered[p]
    ensures Enough(apart, scale, covered, p) && apart[p] == scale * covered[p]
  {
  }

  lemma NothingWanted(apart: seq<real>, scale: real, covered: seq<real>, p: nat)
    requires p < |apart| == |covered| && covered[p] >= 0.0 && scale >= 0.0 && apart[p] <= 0.0
    ensures Enough(apart, scale, covered, p)
  {
  }

  /** Something wanted is not covered at all. */
  ghost predicate Uncovered(apart: seq<real>, covered: seq<real>)
    requires |apart| == |covered|
  {
    exists p | 0 <= p < |apart| :: apart[p] > 0.0 && covered[p] <= 0.0
  }

  /** Somewhere no smaller scale would do. */
  ghost predicate Needed(apart: seq<real>, scale: real, covered: seq<real>)
    requires |apart| == |covered|
  {
    exists p | 0 <= p < |apart| :: covered[p] > 0.0 && scale == apart[p] / covered[p]
  }

  /** The least scale, of at least one, at which what is covered is at least what is wanted;
      none when something wanted is not covered at all. */
  method ScaleOver(apart: seq<real>, covered: seq<real>) returns (scale: Option<real>)
    requires |apart| == |covered| && forall p | 0 <= p < |covered| :: covered[p] >= 0.0
    ensures scale.None? <==> Uncovered(apart, covered)
    ensures scale.Some? ==> scale.value >= 1.0 && EnoughEverywhere(apart, scale.value, covered)
    ensures scale.Some? && scale.value > 1.0 ==> Needed(apart, scale.value, covered)
  {
    var least := 1.0;
    ghost var at := 0;
    for p := 0 to |apart|
      invariant least >= 1.0
      invariant forall q | 0 <= q < p :: Enough(apart, least, covered, q)
      invariant forall q | 0 <= q < p :: apart[q] <= 0.0 || covered[q] > 0.0
      invariant least > 1.0 ==> 0 <= at < p && covered[at] > 0.0 && least == apart[at] / covered[at]
    {
      if apart[p] > 0.0 {
        if covered[p] <= 0.0 {
          return None;
        }
        var wanted := apart[p] / covered[p];
        EnoughAt(apart, wanted, covered, p);
        if wanted > least {
          forall q | 0 <= q < p ensures Enough(apart, wanted, covered, q) {
            EnoughMore(apart, least, wanted, covered, q);
          }
          least, at := wanted, p;
        } else {
          EnoughMore(apart, wanted, least, covered, p);
        }
      } else {
        NothingWanted(apart, least, covered, p);
      }
    }
    scale := Some(least);
  }

  /** What is covered at each point once the first `upto` covers are laid over it. */
  ghost predicate CoveredBy(tones: Tones, kept: seq<real>, upto: nat, covered: seq<real>)
    requires tones.Valid() && |kept| == tones.covers && upto <= tones.covers
  {
    |covered| == tones.Points() && forall p | 0 <= p < |covered| :: covered[p] == Dot(tones.Shares()[p], kept, upto)
  }

  lemma CoveredFrom(tones: Tones, kept: seq<real>, covered: seq<real>)
    requires tones.Valid() && |kept| == tones.covers
    requires |covered| == tones.Points() && forall p | 0 <= p < |covered| :: covered[p] == 0.0
    ensures CoveredBy(tones, kept, 0, covered)
  {
  }

  lemma CoveredMore(tones: Tones, kept: seq<real>, cover: nat, before: seq<real>, after: seq<real>)
    requires tones.Valid() && |kept| == tones.covers && cover < tones.covers
    requires CoveredBy(tones, kept, cover, before) && |after| == |before|
    requires forall p | 0 <= p < |after| ::
      after[p] == if kept[cover] == 0.0 then before[p]
        else Added(before[p], kept[cover], ReachedAt(tones.reaches[cover], p))
    ensures CoveredBy(tones, kept, cover + 1, after)
  {
    forall p | 0 <= p < |after| ensures after[p] == Dot(tones.Shares()[p], kept, cover + 1) {
      assert Agrees(tones.reaches[cover], tones.starts, tones.passed, tones.covers, cover);
      assert ReachedAt(tones.reaches[cover], p) == tones.Shares()[p][cover];
      LaidOver(tones.Shares()[p], kept, cover, before[p], after[p]);
    }
  }

  lemma LaidOver(row: seq<real>, kept: seq<real>, cover: nat, before: real, after: real)
    requires cover < |row| && cover < |kept| && before == Dot(row, kept, cover)
    requires after == if kept[cover] == 0.0 then before else Added(before, kept[cover], row[cover])
    ensures after == Dot(row, kept, cover + 1)
  {
    assert Dot(row, kept, cover + 1) == Dot(row, kept, cover) + row[cover] * kept[cover];
  }

  lemma CoveredIsModelled(tones: Tones, kept: seq<real>, covered: seq<real>)
    requires tones.Valid() && |kept| == tones.covers && CoveredBy(tones, kept, tones.covers, covered)
    requires forall c | 0 <= c < |kept| :: kept[c] >= 0.0
    ensures covered == Modelled(tones.Shares(), tones.covers, kept)
    ensures forall p | 0 <= p < |covered| :: covered[p] >= 0.0
  {
    forall p | 0 <= p < |covered| ensures covered[p] >= 0.0 {
      SharesShow(tones, p);
      DotNeverNegative(tones.Shares()[p], kept, tones.covers);
    }
  }

  lemma SharesShow(tones: Tones, p: nat)
    requires tones.Valid() && p < tones.Points()
    ensures forall c | 0 <= c < tones.covers :: tones.Shares()[p][c] >= 0.0
  {
    var entries := PassedAt(tones.starts, tones.passed, p);
    forall k | 0 <= k < |entries| ensures entries[k].1 >= 0.0 {
      assert entries[k] == tones.passed[tones.starts[p] + k];
    }
  }

  /** One cover laid over the points, unless its weight is nothing. */
  method Lay(tones: Tones, ghost kept: seq<real>, cover: nat, weight: real, covered: array<real>)
    requires tones.Valid() && |kept| == tones.covers && cover < tones.covers && weight == kept[cover]
    requires CoveredBy(tones, kept, cover, covered[..])
    modifies covered
    ensures CoveredBy(tones, kept, cover + 1, covered[..])
  {
    ghost var before := covered[..];
    assert Agrees(tones.reaches[cover], tones.starts, tones.passed, tones.covers, cover);
    if weight != 0.0 {
      CoverOver(tones.reaches[cover], weight, covered);
    }
    CoveredMore(tones, kept, cover, before, covered[..]);
  }

  method Covered(tones: Tones, weights: seq<real>, prices: seq<real>) returns (over: seq<real>)
    requires tones.Valid() && |weights| == |prices| == tones.covers
    ensures over == Modelled(tones.Shares(), tones.covers, KeptWeights(weights, prices))
    ensures forall p | 0 <= p < |over| :: over[p] >= 0.0
  {
    ghost var kept := KeptWeights(weights, prices);
    var covered := new real[tones.Points()](_ => 0.0);
    CoveredFrom(tones, kept, covered[..]);
    for cover := 0 to tones.covers
      invariant CoveredBy(tones, kept, cover, covered[..])
    {
      var counts := weights[cover] > 0.0 && prices[cover] > 0.0;
      Lay(tones, kept, cover, if counts then weights[cover] else 0.0, covered);
    }
    over := covered[..];
    CoveredIsModelled(tones, kept, over);
  }

  method PaidOver(weights: seq<real>, prices: seq<real>, covers: nat) returns (sum: real)
    requires |weights| == |prices| == covers
    ensures sum == Dot(KeptWeights(weights, prices), prices, covers)
  {
    sum := 0.0;
    for cover := 0 to covers
      invariant sum == Dot(KeptWeights(weights, prices), prices, cover)
    {
      if prices[cover] > 0.0 {
        sum := sum + Max(weights[cover], 0.0) * prices[cover];
      }
    }
  }

  /** Weights found for one set of prices, tried on another: nothing when something wanted is
      left uncovered, and otherwise a bound on every mix these prices allow. */
  method PaidBy(tones: Tones, weights: seq<real>, prices: seq<real>, apart: seq<real>) returns (paid: Option<real>)
    requires tones.Valid() && |weights| == |prices| == tones.covers && |apart| == tones.Points()
    ensures paid.Some? ==> tones.Bounds(prices, apart, paid.value)
    ensures paid.None? <==> Uncovered(apart, Modelled(tones.Shares(), tones.covers, KeptWeights(weights, prices)))
  {
    var covered := Covered(tones, weights, prices);
    var sum := PaidOver(weights, prices, tones.covers);
    var scale := ScaleOver(apart, covered);
    if scale.Some? {
      var most := scale.value * sum;
      KeptBound(tones, weights, prices, apart, covered, scale.value, sum, most, tones.covers);
      paid := Some(most);
    } else {
      paid := None;
    }
  }

  lemma KeptBound(
    tones: Tones, weights: seq<real>, prices: seq<real>, apart: seq<real>, covered: seq<real>, scale: real, sum: real,
    most: real, covers: nat)
    requires tones.Valid() && tones.covers == covers == |weights| == |prices| && |apart| == tones.Points()
    requires covered == Modelled(tones.Shares(), covers, KeptWeights(weights, prices))
    requires scale >= 0.0 && EnoughEverywhere(apart, scale, covered)
    requires sum == Dot(KeptWeights(weights, prices), prices, covers) && most == scale * sum
    ensures tones.Bounds(prices, apart, most)
  {
    WeightsBound(tones, KeptWeights(weights, prices), prices, apart, scale, covers, tones.Points());
  }
}
