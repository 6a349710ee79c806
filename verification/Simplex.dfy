/** The linear programme behind the bound: a basis of points and slacks, its inverse, and
    the values the basis takes, moved from pivot to pivot. */
module Simplex {
  import opened Vectors
  import opened Matrices
  import opened Wrappers
  import opened Folding
  import opened Tones
  import opened Pivoting

  const WHOLE: nat := 0
  const PIVOTS_AT_MOST: nat := 400
  const GAINED_AT_LEAST := 0.000000000001
  const MOVED_AT_LEAST := 0.000000000001
  const SETTLED_WITHIN := 0.001
  const STRAYED_AT_MOST := 0.000000001

  datatype Paid = Paid(paid: real, weights: seq<real>)

  /** The column of a variable: a point's shares of the covers that have a price, or a slack
      of one cover. */
  ghost function ColumnOf(tones: Tones, covering: seq<bool>, variable: nat): (column: seq<real>)
    requires tones.Valid() && |covering| == tones.covers && variable < tones.Points() + tones.covers
    ensures |column| == tones.covers
  {
    seq(tones.covers, c requires 0 <= c < tones.covers =>
      if variable >= tones.Points() then Unit(c, variable - tones.Points())
      else if covering[c] then tones.Shares()[variable][c] else 0.0)
  }

  ghost function ColumnsOf(tones: Tones, covering: seq<bool>, basis: seq<nat>): (columns: Matrix)
    requires tones.Valid() && |covering| == tones.covers
    requires forall s | 0 <= s < |basis| :: basis[s] < tones.Points() + tones.covers
    ensures |columns| == |basis| && Even(columns, tones.covers)
    ensures forall s | 0 <= s < |basis| :: columns[s] == ColumnOf(tones, covering, basis[s])
  {
    seq(|basis|, s requires 0 <= s < |basis| => ColumnOf(tones, covering, basis[s]))
  }

  /** What each basic variable takes from a vector over the points; a slack takes nothing. */
  ghost function Chosen(basis: seq<nat>, x: seq<real>, points: nat): (chosen: seq<real>)
    requires |x| == points
    ensures |chosen| == |basis|
    ensures forall s | 0 <= s < |basis| :: chosen[s] == if basis[s] < points then x[basis[s]] else 0.0
  {
    seq(|basis|, s requires 0 <= s < |basis| => if basis[s] < points then x[basis[s]] else 0.0)
  }

  // ---------------------------------------------------------------- the mix a basis stands for

  /** The mix in which every basic point sounds at its value. */
  ghost function Mixed(basis: seq<nat>, values: seq<real>, points: nat, upto: nat): (mix: seq<real>)
    requires |basis| == |values| && upto <= |basis|
    ensures |mix| == points
    ensures (forall s | 0 <= s < |values| :: values[s] >= 0.0) ==> forall p | 0 <= p < points :: mix[p] >= 0.0
  {
    if upto == 0 then Zeros(points)
    else
      var before := Mixed(basis, values, points, upto - 1);
      var variable := basis[upto - 1];
      if variable < points then before[variable := before[variable] + values[upto - 1]] else before
  }

  lemma {:induction false} MixedTakes(basis: seq<nat>, values: seq<real>, points: nat, x: seq<real>, upto: nat)
    requires |basis| == |values| && upto <= |basis| && |x| == points
    ensures Dot(Mixed(basis, values, points, upto), x, points) == Dot(Chosen(basis, x, points), values, upto)
  {
    var mix := Mixed(basis, values, points, upto);
    if upto == 0 {
      DotSilent(mix, x, points);
    } else {
      var s := upto - 1;
      MixedTakes(basis, values, points, x, s);
      var chosen := Chosen(basis, x, points);
      assert Dot(chosen, values, upto) == Dot(chosen, values, s) + chosen[s] * values[s];
      if basis[s] < points {
        DotChanged(Mixed(basis, values, points, s), basis[s], values[s], mix, x, points);
      }
    }
  }

  /** Where the values are the inverse applied to the prices and none is negative, the mix a
      basis stands for is one the prices allow. */
  lemma MixedAllowed(
    tones: Tones, covering: seq<bool>, prices: seq<real>, basis: seq<nat>, inverse: Matrix, values: seq<real>,
    covers: nat, points: nat)
    requires tones.Valid() && tones.covers == covers && tones.Points() == points
    requires |covering| == |prices| == |basis| == |values| == covers
    requires forall s | 0 <= s < covers :: basis[s] < points + covers
    requires forall c | 0 <= c < covers :: covering[c] <==> prices[c] > 0.0
    requires Inverts(inverse, ColumnsOf(tones, covering, basis), covers)
    requires values == Modelled(inverse, covers, prices)
    requires forall r | 0 <= r < covers :: values[r] >= 0.0
    ensures tones.Allowed(prices, Mixed(basis, values, points, covers))
  {
    var mix := Mixed(basis, values, points, covers);
    forall c | 0 <= c < covers && prices[c] > 0.0 ensures tones.Held(mix)[c] <= prices[c] {
      MixedHeld(tones, covering, prices, basis, inverse, values, covers, points, c);
    }
  }

  lemma MixedHeld(
    tones: Tones, covering: seq<bool>, prices: seq<real>, basis: seq<nat>, inverse: Matrix, values: seq<real>,
    covers: nat, points: nat, c: nat)
    requires tones.Valid() && tones.covers == covers && tones.Points() == points
    requires |covering| == |prices| == |basis| == |values| == covers
    requires forall s | 0 <= s < covers :: basis[s] < points + covers
    requires Inverts(inverse, ColumnsOf(tones, covering, basis), covers)
    requires values == Modelled(inverse, covers, prices)
    requires forall r | 0 <= r < covers :: values[r] >= 0.0
    requires c < covers && covering[c]
    ensures tones.Held(Mixed(basis, values, points, covers))[c] <= prices[c]
  {
    var columns := ColumnsOf(tones, covering, basis);
    var mix := Mixed(basis, values, points, covers);
    var shares := Column(tones.Shares(), covers, c);
    AgainstOne(tones.Shares(), covers, mix, c, points);
    MixedTakes(basis, values, points, shares, covers);
    var chosen, row := Chosen(basis, shares, points), Column(columns, covers, c);
    DotCommutes(chosen, values, covers);
    DotCommutes(row, values, covers);
    forall s | 0 <= s < covers ensures chosen[s] <= row[s] {
      assert row[s] == ColumnOf(tones, covering, basis[s])[c];
    }
    DotWeighed(values, chosen, row, covers);
    GivenBack(inverse, columns, covers, prices, c);
  }

  // ---------------------------------------------------------------- one tone alone

  /** As loud as a tone at one point alone may be under the covers counted. */
  ghost predicate RoomAt(tones: Tones, counted: seq<bool>, prices: seq<real>, point: nat, room: Option<real>)
    requires tones.Valid() && |counted| == |prices| == tones.covers && point < tones.Points()
  {
    && (room.Some? ==> room.value >= 0.0)
    && forall c | 0 <= c < tones.covers && counted[c] && tones.Shares()[point][c] > 0.0 ::
         room.Some? && Fits(room.value, tones.Shares()[point][c], prices[c])
  }

  predicate Fits(level: real, share: real, price: real) {
    level * share <= price
  }

  /** One tone sounding alone holds its level's share of every cover. */
  lemma AloneHeld(tones: Tones, point: nat, level: real, c: nat, points: nat)
    requires tones.Valid() && point < points == tones.Points() && c < tones.covers
    ensures tones.Held(Zeros(points)[point := level])[c] == level * tones.Shares()[point][c]
  {
    AloneAgainst(tones.Shares(), tones.covers, point, level, c, points);
  }

  lemma AloneAgainst(shares: Matrix, covers: nat, point: nat, level: real, c: nat, points: nat)
    requires |shares| == points && Even(shares, covers) && point < points && c < covers
    ensures Against(shares, covers, Zeros(points)[point := level], points)[c] == level * shares[point][c]
  {
    AgainstOne(shares, covers, Zeros(points)[point := level], c, points);
    AloneTakes(point, level, Column(shares, covers, c), points);
  }

  lemma AloneSounds(tones: Tones, point: nat, level: real, apart: seq<real>, points: nat)
    requires tones.Valid() && point < points == tones.Points() == |apart|
    ensures tones.Sounding(apart, Zeros(points)[point := level]) == level * apart[point]
  {
    AloneTakes(point, level, apart, points);
  }

  lemma AloneTakes(point: nat, level: real, x: seq<real>, points: nat)
    requires point < points == |x|
    ensures Dot(Zeros(points)[point := level], x, points) == level * x[point]
  {
    DotChanged(Zeros(points), point, level, Zeros(points)[point := level], x, points);
    DotSilent(Zeros(points), x, points);
  }

  /** A level within every counted cover's room is a mix the prices allow. */
  lemma AloneAllowed(tones: Tones, prices: seq<real>, point: nat, level: real)
    requires tones.Valid() && point < tones.Points() && |prices| == tones.covers && level >= 0.0
    requires forall c | 0 <= c < tones.covers && prices[c] > 0.0 && tones.Shares()[point][c] > 0.0 ::
      Fits(level, tones.Shares()[point][c], prices[c])
    ensures tones.Allowed(prices, Zeros(tones.Points())[point := level])
  {
    var points := tones.Points();
    var mix := Zeros(points)[point := level];
    forall c | 0 <= c < tones.covers && prices[c] > 0.0 ensures tones.Held(mix)[c] <= prices[c] {
      AloneHeldAtMost(tones, point, level, c, points, prices[c]);
    }
  }

  lemma AloneHeldAtMost(tones: Tones, point: nat, level: real, c: nat, points: nat, price: real)
    requires tones.Valid() && point < points == tones.Points() && c < tones.covers && level >= 0.0 && price >= 0.0
    requires tones.Shares()[point][c] > 0.0 ==> Fits(level, tones.Shares()[point][c], price)
    ensures tones.Held(Zeros(points)[point := level])[c] <= price
  {
    SharesShow(tones, point);
    AloneHeld(tones, point, level, c, points);
    AloneWithin(level, tones.Shares()[point][c], price);
  }

  lemma AloneWithin(level: real, share: real, price: real)
    requires level >= 0.0 && share >= 0.0 && price >= 0.0 && (share > 0.0 ==> Fits(level, share, price))
    ensures level * share <= price
  {
  }

  method RoomOver(tones: Tones, prices: seq<real>, point: nat) returns (room: Option<real>)
    requires tones.Valid() && |prices| == tones.covers && point < tones.Points()
    requires forall c | 0 <= c < tones.covers :: prices[c] >= 0.0
    ensures RoomAt(tones, Counted(prices), prices, point, room)
  {
    room := None;
    var entries := PassedAt(tones.starts, tones.passed, point);
    for k := 0 to |entries|
      invariant room.Some? ==> room.value >= 0.0
      invariant forall j | 0 <= j < k && Counted(prices)[entries[j].0] ::
        room.Some? && Fits(room.value, entries[j].1, prices[entries[j].0])
    {
      var (node, share) := entries[k];
      assert entries[k] == tones.passed[tones.starts[point] + k];
      if node != WHOLE && prices[node] > 0.0 {
        var level := prices[node] / share;
        Levelled(level, prices[node], share);
        if room.None? || level < room.value {
          forall j | 0 <= j < k && Counted(prices)[entries[j].0]
            ensures Fits(level, entries[j].1, prices[entries[j].0]) {
            assert entries[j] == tones.passed[tones.starts[point] + j];
            Lowered(room.value, level, entries[j].1, prices[entries[j].0]);
          }
          room := Some(level);
        } else {
          Lowered(level, room.value, share, prices[node]);
        }
      }
    }
    forall c | 0 <= c < tones.covers && Counted(prices)[c] && tones.Shares()[point][c] > 0.0
      ensures room.Some? && Fits(room.value, tones.Shares()[point][c], prices[c])
    {
      var k := EntryOf(tones, point, c);
    }
  }

  lemma Levelled(level: real, price: real, share: real)
    requires share > 0.0 && price > 0.0 && level == price / share
    ensures level >= 0.0 && Fits(level, share, price)
  {
  }

  lemma Lowered(level: real, lower: real, share: real, price: real)
    requires Fits(level, share, price) && lower <= level && share >= 0.0
    ensures Fits(lower, share, price)
  {
    Weighed(share, lower, level);
  }

  /** Every cover with a price but the first. */
  function Counted(prices: seq<real>): (counted: seq<bool>)
    ensures |counted| == |prices| && forall c | 0 <= c < |prices| :: counted[c] == (c != WHOLE && prices[c] > 0.0)
  {
    seq(|prices|, c requires 0 <= c < |prices| => c != WHOLE && prices[c] > 0.0)
  }

  /** A share above nothing is one of the point's own entries. */
  lemma EntryOf(tones: Tones, point: nat, c: nat) returns (k: nat)
    requires tones.Valid() && point < tones.Points() && c < tones.covers && tones.Shares()[point][c] > 0.0
    ensures k < tones.starts[point + 1] - tones.starts[point]
    ensures PassedAt(tones.starts, tones.passed, point)[k] == (c, tones.Shares()[point][c])
  {
    var entries := PassedAt(tones.starts, tones.passed, point);
    forall j, k | 0 <= j < k < |entries| ensures entries[j].0 != entries[k].0 {
      assert entries[j] == tones.passed[tones.starts[point] + j] && entries[k] == tones.passed[tones.starts[point] + k];
    }
    k := EntryIn(entries, tones.covers, c);
  }

  lemma {:induction false} EntryIn(entries: seq<(nat, real)>, covers: nat, c: nat) returns (k: nat)
    requires forall k | 0 <= k < |entries| :: entries[k].0 < covers
    requires forall j, k | 0 <= j < k < |entries| :: entries[j].0 != entries[k].0
    requires c < covers && Scattered(entries, covers)[c] > 0.0
    ensures k < |entries| && entries[k] == (c, Scattered(entries, covers)[c])
  {
    var last := |entries| - 1;
    var before := entries[..last];
    if entries[last].0 == c {
      Unlisted(before, covers, c);
      k := last;
    } else {
      k := EntryIn(before, covers, c);
    }
  }

  // ---------------------------------------------------------------- the programme in place

  /** The covers counted are those with a price, and every point knows how loud a tone there
      may be under all of them but the first. */
  ghost predicate Afforded(tones: Tones, prices: seq<real>, covering: seq<bool>, whole: real, room: seq<Option<real>>) {
    && tones.Valid() && 0 < tones.covers == |prices| == |covering|
    && (forall c | 0 <= c < tones.covers :: prices[c] >= 0.0 && (covering[c] <==> prices[c] > 0.0))
    && whole >= 0.0 && (whole > 0.0 <==> covering[WHOLE])
    && |room| == tones.Points()
    && forall p | 0 <= p < tones.Points() :: RoomAt(tones, Counted(prices), prices, p, room[p])
  }

  /** The inverse undoes the basis, and no basic variable is negative. */
  ghost predicate Based(tones: Tones, covering: seq<bool>, basis: seq<nat>, inverse: Matrix, values: seq<real>)
    requires tones.Valid()
  {
    && |covering| == |basis| == |values| == tones.covers
    && (forall s | 0 <= s < tones.covers :: basis[s] < tones.Points() + tones.covers)
    && Inverts(inverse, ColumnsOf(tones, covering, basis), tones.covers)
    && forall r | 0 <= r < tones.covers :: values[r] >= 0.0
  }

  /** A level no higher than the room under the other covers, and within the first's. */
  lemma LevelSuits(
    tones: Tones, covering: seq<bool>, prices: seq<real>, now: seq<real>, point: nat, room: Option<real>,
    level: Option<real>)
    requires tones.Valid() && 0 < tones.covers == |covering| == |prices| == |now| && point < tones.Points()
    requires forall c | 0 <= c < tones.covers && c != WHOLE :: now[c] == prices[c] && (covering[c] <==> prices[c] > 0.0)
    requires RoomAt(tones, Counted(prices), prices, point, room)
    requires level == room || (level.Some? && level.value >= 0.0 && (room.Some? ==> level.value <= room.value))
    requires covering[WHOLE] && tones.Shares()[point][WHOLE] > 0.0 ==>
      level.Some? && Fits(level.value, tones.Shares()[point][WHOLE], now[WHOLE])
    ensures RoomAt(tones, covering, now, point, level)
  {
    if level != room {
      LevelLowered(tones, Counted(prices), prices, point, room, level.value);
    }
    forall c | 0 <= c < tones.covers && covering[c] && tones.Shares()[point][c] > 0.0
      ensures level.Some? && Fits(level.value, tones.Shares()[point][c], now[c])
    {
      if c != WHOLE {
        assert Counted(prices)[c];
      }
    }
  }

  lemma LevelLowered(
    tones: Tones, counted: seq<bool>, prices: seq<real>, point: nat, level: Option<real>, lower: real)
    requires tones.Valid() && |counted| == |prices| == tones.covers && point < tones.Points()
    requires RoomAt(tones, counted, prices, point, level)
    requires lower >= 0.0 && (level.Some? ==> lower <= level.value)
    ensures RoomAt(tones, counted, prices, point, Some(lower))
  {
    forall c | 0 <= c < tones.covers && counted[c] && tones.Shares()[point][c] > 0.0
      ensures Fits(lower, tones.Shares()[point][c], prices[c])
    {
      Lowered(level.value, lower, tones.Shares()[point][c], prices[c]);
    }
  }

  /** The prices with the first cover's as it is for a transient. */
  function PricedFor(prices: seq<real>, whole: real, transient: real): (at: seq<real>)
    requires |prices| > 0
    ensures |at| == |prices|
  {
    prices[WHOLE := whole * transient]
  }

  lemma PricedAlike(one: seq<real>, other: seq<real>, whole: real, transient: real)
    requires 0 < |one| == |other| && forall c | 0 <= c < |one| && c != WHOLE :: one[c] == other[c]
    ensures PricedFor(one, whole, transient) == PricedFor(other, whole, transient)
  {
  }

  lemma Repriced(
    tones: Tones, prices: seq<real>, covering: seq<bool>, whole: real, room: seq<Option<real>>, transient: real)
    requires Afforded(tones, prices, covering, whole, room) && transient > 0.0
    ensures Afforded(tones, PricedFor(prices, whole, transient), covering, whole, room)
  {
    PriceShows(whole, transient);
    var now := PricedFor(prices, whole, transient);
    assert Counted(now) == Counted(prices);
    forall p | 0 <= p < tones.Points() ensures RoomAt(tones, Counted(now), now, p, room[p]) {
      assert RoomAt(tones, Counted(prices), prices, p, room[p]);
    }
  }

  function Raised(values: seq<real>): (raised: seq<real>)
    ensures |raised| == |values| && forall r | 0 <= r < |values| :: raised[r] == Max(values[r], 0.0)
  {
    seq(|values|, r requires 0 <= r < |values| => Max(values[r], 0.0))
  }

  lemma RaisedShows(inverse: Matrix, prices: seq<real>, m: nat)
    requires |inverse| == |prices| == m && Even(inverse, m)
    ensures Raised(Modelled(inverse, m, prices)) == Modelled(inverse, m, prices) <==> Straight(inverse, prices)
  {
    var values := Modelled(inverse, m, prices);
    if Straight(inverse, prices) {
      assert Raised(values) == values;
    } else {
      var r :| 0 <= r < m && Dot(inverse[r], prices, m) < 0.0;
      assert Raised(values)[r] != values[r];
    }
  }

  lemma SilenceHeard(tones: Tones, prices: seq<real>, apart: seq<real>, points: nat)
    requires tones.Valid() && |prices| == tones.covers && 0 < points == tones.Points() == |apart|
    ensures Under(tones, prices, apart, Some(0.0))
  {
    AloneAllowed(tones, prices, 0, 0.0);
    AloneSounds(tones, 0, 0.0, apart, points);
  }

  class Solving {
    const tones: Tones
    const whole: real
    const covering: seq<bool>
    const room: seq<Option<real>>
    var prices: seq<real>
    var basis: seq<nat>
    var inverse: Matrix
    var values: seq<real>

    /** What every operation keeps: the inverse undoes the basis, no value is negative, and
        the covers counted are those with a price. */
    ghost predicate Valid()
      reads this
    {
      Afforded(tones, prices, covering, whole, room) && Based(tones, covering, basis, inverse, values)
    }

    /** The values are exactly what the inverse makes of the prices: none had to be raised to
        nothing from below it. */
    ghost predicate Exact()
      requires Valid()
      reads this
    {
      values == Modelled(inverse, tones.covers, prices)
    }

    /** The mix the basis stands for, and what it sounds like. */
    ghost function Mix(): (mix: seq<real>)
      requires Valid()
      reads this
      ensures |mix| == tones.Points()
    {
      Mixed(basis, values, tones.Points(), tones.covers)
    }

    constructor Over(tones: Tones, asked: seq<real>)
      requires tones.Valid() && 0 < tones.covers == |asked|
      ensures Valid() && Exact() && this.tones == tones
      ensures forall c | 0 <= c < |asked| :: prices[c] == Max(asked[c], 0.0)
      ensures whole == prices[WHOLE]
      ensures (forall s | 0 <= s < tones.covers :: basis[s] == tones.Points() + s) && inverse == Identity(tones.covers)
    {
      var clipped := seq(|asked|, c requires 0 <= c < |asked| => Max(asked[c], 0.0));
      var rooms := [];
      for p := 0 to tones.Points()
        invariant |rooms| == p
        invariant forall q | 0 <= q < p :: RoomAt(tones, Counted(clipped), clipped, q, rooms[q])
      {
        var one := RoomOver(tones, clipped, p);
        rooms := rooms + [one];
      }
      this.tones := tones;
      this.prices := clipped;
      this.whole := clipped[WHOLE];
      this.covering := seq(|asked|, c requires 0 <= c < |asked| => clipped[c] > 0.0);
      this.room := rooms;
      this.basis := seq(tones.covers, node => tones.Points() + node);
      this.inverse := Identity(tones.covers);
      this.values := clipped;
      new;
      Started();
    }

    /** Where the basis is every slack and the inverse the identity, the values are the prices. */
    lemma Started()
      requires tones.Valid() && |covering| == |prices| == tones.covers && |basis| == tones.covers
      requires forall s | 0 <= s < tones.covers :: basis[s] == tones.Points() + s
      requires inverse == Identity(tones.covers)
      ensures Inverts(inverse, ColumnsOf(tones, covering, basis), tones.covers)
      ensures prices == Modelled(inverse, tones.covers, prices)
    {
      var columns := ColumnsOf(tones, covering, basis);
      assert columns == inverse by {
        forall s | 0 <= s < tones.covers ensures columns[s] == inverse[s] {
          assert columns[s] == ColumnOf(tones, covering, basis[s]);
        }
      }
      IdentityInverts(inverse, tones.covers);
      forall r | 0 <= r < tones.covers ensures Modelled(inverse, tones.covers, prices)[r] == prices[r] {
        DotUnit(inverse[r], r, prices, tones.covers);
      }
    }

    method StartOver()
      requires Valid()
      modifies this`basis, this`inverse, this`values
      ensures Valid() && Exact()
      ensures forall s | 0 <= s < tones.covers :: basis[s] == tones.Points() + s
      ensures inverse == Identity(tones.covers)
    {
      var points := tones.Points();
      inverse := Identity(tones.covers);
      basis := seq(tones.covers, node => points + node);
      values := prices;
      Started();
    }

    /** The prices with the first cover's raised or lowered to suit a transient. */
    ghost function PricesAt(transient: real): (at: seq<real>)
      requires Valid()
      reads this
      ensures |at| == tones.covers
    {
      PricedFor(prices, whole, transient)
    }

    /** Another price for the first cover. The values follow from the inverse; where one falls
        too far under nothing the basis is given up, and where it falls a little it is raised
        back to nothing, which alone leaves the values inexact. */
    method PricedWholeAt(transient: real)
      requires Valid() && transient > 0.0
      modifies this`prices, this`basis, this`inverse, this`values
      ensures Valid() && prices == old(PricesAt(transient))
      ensures whole * transient == old(prices[WHOLE]) ==>
        basis == old(basis) && inverse == old(inverse) && values == old(values) && prices == old(prices)
        && (Exact() <==> old(Exact()))
      ensures whole * transient != old(prices[WHOLE]) ==>
        (Exact() <==> Strays(old(inverse), prices) || Straight(old(inverse), prices))
    {
      var price := whole * transient;
      if price == prices[WHOLE] {
        assert prices == prices[WHOLE := price];
        return;
      }
      Repriced(tones, prices, covering, whole, room, transient);
      prices := prices[WHOLE := price];
      Recompute();
    }

    method Recompute()
      requires Valid()
      modifies this`basis, this`inverse, this`values
      ensures Valid()
      ensures Exact() <==> Strays(old(inverse), prices) || Straight(old(inverse), prices)
    {
      var recomputed, strayed := AppliedTo(inverse, prices);
      if strayed {
        StartOver();
      } else {
        values := Raised(recomputed);
        RaisedShows(inverse, prices, tones.covers);
      }
    }

    /** How loud one tone alone may be: no bound on what the prices allow is under it, and
        where nothing holds a tone back there is no bound. */
    method HeardAlone(apart: seq<real>, transient: real) returns (alone: Option<real>)
      requires Valid() && |apart| == tones.Points() && transient > 0.0
      ensures Under(tones, PricesAt(transient), apart, alone)
    {
      ghost var now := PricesAt(transient);
      Repriced(tones, prices, covering, whole, room, transient);
      alone := Some(0.0);
      SilenceHeard(tones, now, apart, tones.Points());
      for p := 0 to tones.Points() - 1
        invariant Under(tones, now, apart, alone)
      {
        if apart[p] > 0.0 {
          var level := LevelAt(p, transient);
          LevelHeard(tones, covering, now, apart, p, level, tones.Points());
          alone := LouderOf(alone, if level.Some? then Some(apart[p] * level.value) else None);
        }
      }
    }

    method LevelAt(point: nat, transient: real) returns (level: Option<real>)
      requires Valid() && point < tones.Points() && transient > 0.0
      ensures RoomAt(tones, covering, PricesAt(transient), point, level)
    {
      var price := whole * transient;
      PriceShows(whole, transient);
      var share := WholeShareAt(point);
      level := room[point];
      if covering[WHOLE] && share > 0.0 {
        var most := price / share;
        Levelled(most, price, share);
        if level.None? || most < level.value {
          level := Some(most);
        }
        Lowered(most, level.value, share, price);
      }
      LevelSuits(tones, covering, prices, PricesAt(transient), point, room[point], level);
    }

    method WholeShareAt(point: nat) returns (share: real)
      requires Valid() && point < tones.Points()
      ensures share == tones.Shares()[point][WHOLE]
    {
      var reach := tones.reaches[WHOLE];
      assert Agrees(reach, tones.starts, tones.passed, tones.covers, WHOLE);
      share := ReachedAt(reach, point);
    }

    /** The basis stands for a mix the prices allow, and `Reached` is what it sounds like. */
    lemma Attained()
      requires Valid() && Exact()
      ensures tones.Allowed(prices, Mix())
    {
      MixedAllowed(tones, covering, prices, basis, inverse, values, tones.covers, tones.Points());
    }

    lemma AttainedMix(apart: seq<real>, reached: real)
      requires Valid() && |apart| == tones.Points() && reached <= tones.Sounding(apart, Mix())
      ensures Exact() ==> exists mix :: tones.Allowed(prices, mix) && reached <= tones.Sounding(apart, mix)
    {
      if Exact() {
        Attained();
      }
    }

    method Reached(apart: seq<real>) returns (reached: real)
      requires Valid() && |apart| == tones.Points()
      ensures reached == tones.Sounding(apart, Mix())
    {
      ghost var chosen := Chosen(basis, apart, tones.Points());
      reached := 0.0;
      for s := 0 to tones.covers
        invariant reached == Dot(chosen, values, s)
      {
        if basis[s] < tones.Points() {
          reached := reached + apart[basis[s]] * values[s];
        }
      }
      MixedTakes(basis, values, tones.Points(), apart, tones.covers);
    }

    /** The inverse applied to a variable's column, read off where the variable is a slack. */
    method Column(variable: nat) returns (column: seq<real>)
      requires Valid() && variable < tones.Points() + tones.covers
      ensures column == Modelled(inverse, tones.covers, ColumnOf(tones, covering, variable))
    {
      column := ColumnFrom(tones, covering, inverse, variable, tones.Points(), tones.covers);
    }

    /** What each cover is worth under the basis: the gains of the basic points against the
        rows of the inverse. */
    method Weights(apart: seq<real>) returns (weights: seq<real>)
      requires Valid() && |apart| == tones.Points()
      ensures weights == WeightsOf(basis, inverse, apart, tones.Points(), tones.covers)
    {
      var points, covers := tones.Points(), tones.covers;
      ghost var chosen := Chosen(basis, apart, points);
      weights := Zeros(covers);
      for r := 0 to covers
        invariant weights == Against(inverse, covers, chosen, r)
      {
        if basis[r] < points {
          weights := AddedTo(weights, apart[basis[r]], inverse[r]);
        } else {
          AddedNothing(weights, inverse[r]);
        }
      }
    }

    /** One variable enters the basis for another. The inverse stays the inverse of the new
        basis whatever the column; the values stay exact just where none of them had to be
        raised back to nothing. */
    method Pivot(entering: nat) returns (moved: bool, ghost leaving: nat)
      requires Valid() && entering < tones.Points() + tones.covers
      modifies this`basis, this`inverse, this`values
      ensures Valid()
      ensures !moved ==> basis == old(basis) && inverse == old(inverse) && values == old(values)
      ensures moved <==> Moves(old(Factors(entering)))
      ensures moved ==> Turned(old(Now()), old(Factors(entering)), entering, leaving, Now())
      ensures moved && old(Exact()) ==> (Exact() <==> NoneDips(old(values), old(Factors(entering)), leaving))
    {
      var column := Column(entering);
      var found := Leaving(values, column);
      if found.None? {
        return false, 0;
      }
      var row, covers := found.value, tones.covers;
      var next := Eliminated(inverse, column, row, covers);
      BasedKept(tones, covering, basis, inverse, values, entering, column, row, next);
      if Exact() {
        ExactAfter(inverse, prices, values, column, row, next, covers);
      }
      values := Raised(ValuesAfter(values, column, row));
      inverse := next;
      basis := basis[row := entering];
      moved, leaving := true, row;
    }

    /** Weights priced as a bound: the variable whose gain is the most, where any gains more
        than next to nothing, and what the weights, scaled until they cover everything wanted,
        pay for. */
    method Priced(apart: seq<real>, weights: seq<real>) returns (entering: Option<nat>, paid: Option<Paid>)
      requires Valid() && |apart| == tones.Points()
      requires weights == WeightsOf(basis, inverse, apart, tones.Points(), tones.covers)
      ensures entering.None? <==> forall v | 0 <= v < tones.Points() + tones.covers ::
        GainOf(tones, covering, apart, weights, v) <= Worthwhile(apart)
      ensures entering.Some? ==>
        && entering.value < tones.Points() + tones.covers && entering.value !in basis
        && GainOf(tones, covering, apart, weights, entering.value) > Worthwhile(apart)
        && forall v | 0 <= v < tones.Points() + tones.covers ::
             GainOf(tones, covering, apart, weights, v) <= GainOf(tones, covering, apart, weights, entering.value)
      ensures paid.Some? ==> tones.Bounds(prices, apart, paid.value.paid) && |paid.value.weights| == tones.covers
      ensures paid.None? <==> Uncovered(apart, Modelled(tones.Shares(), tones.covers, KeptWeights(weights, prices)))
    {
      var kept := Raised(weights);
      var covered, coveredKept := Cover(tones, covering, weights, kept, tones.covers);
      KeptIsCounting(weights, prices, covering);
      entering := Steepest(tones, covering, apart, covered, weights, tones.Points(), tones.covers);
      if entering.Some? && entering.value in basis {
        BasicGains(tones, covering, basis, inverse, apart, tones.Points(), tones.covers, entering.value);
        entering := None;
      }
      paid := PaidWith(tones, prices, apart, weights, kept, coveredKept, tones.covers);
    }

    /** A bound on every mix the prices allow, moved from basis to basis until it is enough,
        settled, or no basis is better; nothing where a mix the basis stands for already
        reaches what is to be beaten, or where no weights tried cover everything wanted. */
    method Bound(apart: seq<real>, transient: real, beatenAt: real, enoughAt: real)
      returns (paid: Option<Paid>, ghost beaten: bool, ghost tried: seq<seq<real>>, ghost straight: bool,
               ghost turns: seq<Turn>)
      requires Valid() && |apart| == tones.Points() && transient > 0.0
      modifies this`prices, this`basis, this`inverse, this`values
      ensures Valid() && prices == old(PricesAt(transient))
      ensures paid.Some? ==>
        !beaten && tones.Bounds(prices, apart, paid.value.paid) && |paid.value.weights| == tones.covers
      ensures beaten ==> beatenAt <= tones.Sounding(apart, Mix())
      ensures beaten && Exact() ==> exists mix :: tones.Allowed(prices, mix) && beatenAt <= tones.Sounding(apart, mix)
      ensures straight <==> if whole * transient == old(prices[WHOLE]) then old(Exact())
        else Strays(old(inverse), prices) || Straight(old(inverse), prices)
      ensures Course(straight, turns)
      ensures |tried| > 0
      ensures paid.None? && !beaten ==> NoneCovers(tones, prices, apart, tried)
    {
      PricedWholeAt(transient);
      ghost var now := prices;
      straight := Exact();
      paid, beaten, tried, turns := None, false, [], [];
      for round := 0 to PIVOTS_AT_MOST
        invariant Valid() && prices == now
        invariant Course(straight, turns)
        invariant paid.Some? ==> tones.Bounds(now, apart, paid.value.paid) && |paid.value.weights| == tones.covers
        invariant |tried| >= round && (paid.None? ==> NoneCovers(tones, now, apart, tried))
      {
        var entering;
        entering, paid, tried := PricedAgain(apart, paid, tried);
        if paid.Some? && paid.value.paid <= enoughAt {
          return;
        }
        var reached := Reached(apart);
        if reached >= beatenAt {
          paid, beaten := None, true;
          AttainedMix(apart, beatenAt);
          return;
        }
        if paid.Some? && Settled(paid.value.paid, reached) {
          return;
        }
        if entering.None? {
          return;
        }
        var moved;
        moved, turns := PivotAgain(entering.value, turns, straight);
        if !moved {
          return;
        }
      }
    }

    /** The pivots taken led here, and led straight here if they started straight and all their
        factors moved. */
    ghost predicate Course(straight: bool, turns: seq<Turn>)
      requires Valid()
      reads this
    {
      forall at: nat {:trigger Look(TheTurns, at)} | Look(TheTurns, at) ::
        Chained(turns, Now()) && (straight && AllMove(turns) ==> Exact())
    }

    /** A mix the basis stands for is one the prices allow, where the pivots led straight here. */
    lemma LedStraight(turns: seq<Turn>)
      requires Valid() && Course(true, turns)
      ensures Chained(turns, Now()) && (AllMove(turns) ==> Exact())
    {
      assert Look(TheTurns, 0);
    }

    method PivotAgain(entering: nat, ghost before: seq<Turn>, ghost straight: bool)
      returns (moved: bool, ghost turns: seq<Turn>)
      requires Valid() && entering < tones.Points() + tones.covers && Course(straight, before)
      modifies this`basis, this`inverse, this`values
      ensures Valid() && Course(straight, turns)
    {
      assert Look(TheTurns, 0);
      ghost var was, factors, exact, leaving := Now(), Factors(entering), Exact(), 0;
      moved, leaving := Pivot(entering);
      turns := before;
      if moved {
        ghost var turn := Turn(was, factors, entering, leaving, Now());
        turns := before + [turn];
        ChainedOn(before, turn);
        if exact && FactorsMove(factors) {
          EveryFactorMoves(was.values, factors, leaving);
        }
      }
    }

    method PricedAgain(apart: seq<real>, yet: Option<Paid>, ghost before: seq<seq<real>>)
      returns (entering: Option<nat>, paid: Option<Paid>, ghost tried: seq<seq<real>>)
      requires Valid() && |apart| == tones.Points()
      requires yet.Some? ==> tones.Bounds(prices, apart, yet.value.paid) && |yet.value.weights| == tones.covers
      requires yet.None? ==> NoneCovers(tones, prices, apart, before)
      ensures entering.Some? ==> entering.value < tones.Points() + tones.covers
      ensures paid.Some? ==> tones.Bounds(prices, apart, paid.value.paid) && |paid.value.weights| == tones.covers
      ensures paid.None? ==> NoneCovers(tones, prices, apart, tried)
      ensures |tried| == |before| + 1
    {
      var weights := Weights(apart);
      entering, paid := Priced(apart, weights);
      paid := CheaperOf(yet, paid);
      tried := before + [weights];
    }

    ghost function Now(): Base
      reads this
    {
      Base(basis, inverse, values)
    }

    ghost function Factors(entering: nat): (factors: seq<real>)
      requires Valid() && entering < tones.Points() + tones.covers
      reads this
      ensures |factors| == tones.covers
    {
      Modelled(inverse, tones.covers, ColumnOf(tones, covering, entering))
    }
  }

  function Identity(m: nat): (identity: Matrix)
    ensures |identity| == m && Even(identity, m)
    ensures forall i, j | 0 <= i < m && 0 <= j < m :: identity[i][j] == Unit(i, j)
  {
    seq(m, i requires 0 <= i < m => seq(m, j requires 0 <= j < m => Unit(i, j)))
  }

  lemma PriceShows(whole: real, transient: real)
    requires whole >= 0.0 && transient > 0.0
    ensures whole * transient >= 0.0 && (whole * transient > 0.0 <==> whole > 0.0)
  {
  }

  /** No bound on what the prices allow is under it; and where it is none, there is no bound. */
  ghost predicate Under(tones: Tones, prices: seq<real>, apart: seq<real>, alone: Option<real>)
    requires tones.Valid() && |prices| == tones.covers && |apart| == tones.Points()
  {
    forall bound | tones.Bounds(prices, apart, bound) :: alone.Some? && alone.value <= bound
  }

  function LouderOf(one: Option<real>, other: Option<real>): Option<real> {
    if one.None? || other.None? then None else Some(Max(one.value, other.value))
  }

  /** What a level that alone is allowed says of every bound: it is at least that level's
      sound, and where no level is too loud there is no bound at all. */
  lemma LevelHeard(
    tones: Tones, covering: seq<bool>, prices: seq<real>, apart: seq<real>, point: nat, level: Option<real>,
    points: nat)
    requires tones.Valid() && point < points == tones.Points() == |apart| && |prices| == |covering| == tones.covers
    requires forall c | 0 <= c < tones.covers :: covering[c] <==> prices[c] > 0.0
    requires apart[point] > 0.0 && RoomAt(tones, covering, prices, point, level)
    ensures Under(tones, prices, apart, if level.Some? then Some(apart[point] * level.value) else None)
  {
    forall bound | tones.Bounds(prices, apart, bound)
      ensures level.Some? && apart[point] * level.value <= bound
    {
      var tried := if level.Some? then level.value else Tried(bound, apart[point]);
      AloneAllowed(tones, prices, point, tried);
      AloneSounds(tones, point, tried, apart, points);
    }
  }

  /** A level at which a tone is louder than a bound. */
  function Tried(bound: real, wanted: real): (tried: real)
    requires wanted > 0.0
    ensures tried >= 0.0 && tried * wanted > bound
  {
    var tried := (Abs(bound) + 1.0) / wanted;
    assert tried * wanted == Abs(bound) + 1.0;
    tried
  }

  ghost predicate Strays(inverse: Matrix, prices: seq<real>)
    requires |inverse| == |prices| && Even(inverse, |prices|)
  {
    exists r | 0 <= r < |prices| :: TooLow(Dot(inverse[r], prices, |prices|), prices)
  }

  predicate TooLow(value: real, prices: seq<real>) {
    value < -STRAYED_AT_MOST * LargestOf(prices)
  }

  ghost predicate Straight(inverse: Matrix, prices: seq<real>)
    requires |inverse| == |prices| && Even(inverse, |prices|)
  {
    forall r | 0 <= r < |prices| :: Dot(inverse[r], prices, |prices|) >= 0.0
  }

  function LargestOf(prices: seq<real>): (largest: real)
    ensures largest >= 0.0
    ensures forall c | 0 <= c < |prices| :: prices[c] <= largest
  {
    if prices == [] then 0.0 else Max(LargestOf(prices[..|prices| - 1]), prices[|prices| - 1])
  }

  /** The rows applied to the prices, and whether any comes to too far under nothing. */
  method AppliedTo(inverse: Matrix, prices: seq<real>) returns (applied: seq<real>, strayed: bool)
    requires |inverse| == |prices| && Even(inverse, |prices|)
    ensures applied == Modelled(inverse, |prices|, prices)
    ensures strayed == Strays(inverse, prices)
  {
    applied := [];
    strayed := false;
    for r := 0 to |prices|
      invariant |applied| == r
      invariant forall q | 0 <= q < r :: applied[q] == Dot(inverse[q], prices, |prices|)
      invariant strayed == exists q | 0 <= q < r :: TooLow(Dot(inverse[q], prices, |prices|), prices)
    {
      var sum := 0.0;
      for c := 0 to |prices|
        invariant sum == Dot(inverse[r], prices, c)
      {
        sum := sum + inverse[r][c] * prices[c];
      }
      applied := applied + [sum];
      strayed := strayed || TooLow(sum, prices);
    }
  }

  // ---------------------------------------------------------------- columns

  /** The first entries of a point, over the covers that are counted. */
  ghost function Entered(covering: seq<bool>, entries: seq<(nat, real)>, covers: nat, upto: nat): (column: seq<real>)
    requires |covering| == covers && upto <= |entries|
    requires forall k | 0 <= k < |entries| :: entries[k].0 < covers
    ensures |column| == covers
    ensures forall c | 0 <= c < covers ::
      column[c] == if covering[c] then Scattered(entries[..upto], covers)[c] else 0.0
  {
    seq(covers, c requires 0 <= c < covers => if covering[c] then Scattered(entries[..upto], covers)[c] else 0.0)
  }

  lemma Unentered(covering: seq<bool>, inverse: Matrix, entries: seq<(nat, real)>, covers: nat)
    requires |inverse| == |covering| == covers && Even(inverse, covers)
    requires forall k | 0 <= k < |entries| :: entries[k].0 < covers
    ensures Zeros(covers) == Modelled(inverse, covers, Entered(covering, entries, covers, 0))
  {
    var none := Entered(covering, entries, covers, 0);
    forall r | 0 <= r < covers ensures Modelled(inverse, covers, none)[r] == 0.0 {
      DotSilent(inverse[r], none, covers);
    }
  }

  lemma OneMoreEntered(
    covering: seq<bool>, inverse: Matrix, entries: seq<(nat, real)>, covers: nat, k: nat, before: seq<real>,
    after: seq<real>)
    requires |inverse| == |covering| == covers && Even(inverse, covers) && k < |entries|
    requires forall k | 0 <= k < |entries| :: entries[k].0 < covers
    requires covering[entries[k].0]
    requires before == Modelled(inverse, covers, Entered(covering, entries, covers, k)) && |after| == covers
    requires forall r | 0 <= r < covers :: after[r] == Added(before[r], entries[k].1, inverse[r][entries[k].0])
    ensures after == Modelled(inverse, covers, Entered(covering, entries, covers, k + 1))
  {
    var (node, share) := entries[k];
    var one, next := Entered(covering, entries, covers, k), Entered(covering, entries, covers, k + 1);
    forall c | 0 <= c < covers ensures next[c] == if c == node then one[c] + share else one[c] {
      ScatteredMore(entries, covers, k, c);
    }
    forall r | 0 <= r < covers ensures after[r] == Dot(inverse[r], next, covers) {
      DotChanged(one, node, share, next, inverse[r], covers);
      DotCommutes(one, inverse[r], covers);
      DotCommutes(next, inverse[r], covers);
    }
  }

  lemma OneNotCounted(covering: seq<bool>, entries: seq<(nat, real)>, covers: nat, k: nat)
    requires |covering| == covers && k < |entries|
    requires forall k | 0 <= k < |entries| :: entries[k].0 < covers
    requires !covering[entries[k].0]
    ensures Entered(covering, entries, covers, k + 1) == Entered(covering, entries, covers, k)
  {
    var one, next := Entered(covering, entries, covers, k), Entered(covering, entries, covers, k + 1);
    forall c | 0 <= c < covers ensures next[c] == one[c] {
      ScatteredMore(entries, covers, k, c);
    }
  }

  method ColumnFrom(tones: Tones, covering: seq<bool>, inverse: Matrix, variable: nat, points: nat, covers: nat)
    returns (column: seq<real>)
    requires tones.Valid() && points == tones.Points() && covers == tones.covers == |covering| == |inverse|
    requires Even(inverse, covers) && variable < points + covers
    ensures column == Modelled(inverse, covers, ColumnOf(tones, covering, variable))
  {
    if variable >= points {
      column := seq(covers, r requires 0 <= r < covers => inverse[r][variable - points]);
      SlackColumn(tones, covering, inverse, variable, covers, points);
      return;
    }
    var entries := PassedAt(tones.starts, tones.passed, variable);
    EntriesShow(tones, variable, entries);
    column := Zeros(covers);
    Unentered(covering, inverse, entries, covers);
    for k := 0 to |entries|
      invariant column == Modelled(inverse, covers, Entered(covering, entries, covers, k))
    {
      var (node, share) := entries[k];
      if covering[node] {
        ghost var before := column;
        column := seq(covers, r requires 0 <= r < covers => Added(column[r], share, inverse[r][node]));
        OneMoreEntered(covering, inverse, entries, covers, k, before, column);
      } else {
        OneNotCounted(covering, entries, covers, k);
      }
    }
    AllEntered(tones, covering, variable, entries, covers);
  }

  lemma EntriesShow(tones: Tones, point: nat, entries: seq<(nat, real)>)
    requires tones.Valid() && point < tones.Points() && entries == PassedAt(tones.starts, tones.passed, point)
    ensures forall k | 0 <= k < |entries| :: entries[k].0 < tones.covers
  {
    forall k | 0 <= k < |entries| ensures entries[k].0 < tones.covers {
      assert entries[k] == tones.passed[tones.starts[point] + k];
    }
  }

  lemma AllEntered(tones: Tones, covering: seq<bool>, point: nat, entries: seq<(nat, real)>, covers: nat)
    requires tones.Valid() && covers == tones.covers == |covering| && point < tones.Points()
    requires entries == PassedAt(tones.starts, tones.passed, point)
    requires forall k | 0 <= k < |entries| :: entries[k].0 < covers
    ensures Entered(covering, entries, covers, |entries|) == ColumnOf(tones, covering, point)
  {
    assert entries[..|entries|] == entries;
    assert tones.Shares()[point] == ShareRow(tones.starts, tones.passed, covers, point);
  }

  lemma SlackColumn(tones: Tones, covering: seq<bool>, inverse: Matrix, variable: nat, covers: nat, points: nat)
    requires tones.Valid() && covers == tones.covers == |covering| && points == tones.Points()
    requires points <= variable < points + covers && |inverse| == covers && Even(inverse, covers)
    ensures forall r | 0 <= r < covers ::
      Modelled(inverse, covers, ColumnOf(tones, covering, variable))[r] == inverse[r][variable - points]
  {
    var slack := ColumnOf(tones, covering, variable);
    forall r | 0 <= r < covers ensures Dot(inverse[r], slack, covers) == inverse[r][variable - points] {
      DotUnit(slack, variable - points, inverse[r], covers);
      DotCommutes(inverse[r], slack, covers);
    }
  }

  lemma Exchanged(tones: Tones, covering: seq<bool>, basis: seq<nat>, leaving: nat, entering: nat)
    requires tones.Valid() && |covering| == |basis| == tones.covers && leaving < |basis|
    requires forall s | 0 <= s < |basis| :: basis[s] < tones.Points() + tones.covers
    requires entering < tones.Points() + tones.covers
    ensures ColumnsOf(tones, covering, basis[leaving := entering])
         == ColumnsOf(tones, covering, basis)[leaving := ColumnOf(tones, covering, entering)]
  {
  }

  // ---------------------------------------------------------------- pivots

  function Ratio(values: seq<real>, column: seq<real>, r: nat): real
    requires r < |values| == |column| && column[r] > MOVED_AT_LEAST
  {
    values[r] / column[r]
  }

  /** Of the rows the column moves, none comes to less, and none before this to as little. */
  ghost predicate Least(values: seq<real>, column: seq<real>, leaving: nat) {
    && leaving < |values| == |column| && column[leaving] > MOVED_AT_LEAST
    && (forall r | 0 <= r < |column| && column[r] > MOVED_AT_LEAST ::
          Ratio(values, column, leaving) <= Ratio(values, column, r))
    && forall r | 0 <= r < leaving && column[r] > MOVED_AT_LEAST ::
         Ratio(values, column, leaving) < Ratio(values, column, r)
  }

  predicate Moves(column: seq<real>) {
    exists r | 0 <= r < |column| :: column[r] > MOVED_AT_LEAST
  }

  /** Which row the entering column drives out: of the rows it moves, the first whose value
      its factor divides into least. */
  method Leaving(values: seq<real>, column: seq<real>) returns (leaving: Option<nat>)
    requires |values| == |column|
    ensures leaving.Some? <==> Moves(column)
    ensures leaving.Some? ==> Least(values, column, leaving.value)
  {
    leaving := None;
    for r := 0 to |column|
      invariant leaving.None? <==> forall q | 0 <= q < r :: column[q] <= MOVED_AT_LEAST
      invariant leaving.Some? ==> leaving.value < r && column[leaving.value] > MOVED_AT_LEAST
      invariant leaving.Some? ==> forall q | 0 <= q < r && column[q] > MOVED_AT_LEAST ::
        Ratio(values, column, leaving.value) <= Ratio(values, column, q)
      invariant leaving.Some? ==> forall q | 0 <= q < leaving.value && column[q] > MOVED_AT_LEAST ::
        Ratio(values, column, leaving.value) < Ratio(values, column, q)
    {
      if column[r] > MOVED_AT_LEAST {
        if leaving.None? || Ratio(values, column, r) < Ratio(values, column, leaving.value) {
          leaving := Some(r);
        }
      }
    }
  }

  /** A basis, its inverse and the values it takes. */
  datatype Base = Base(basis: seq<nat>, inverse: Matrix, values: seq<real>)

  /** What a pivot makes of a basis. */
  ghost predicate Turned(before: Base, factors: seq<real>, entering: nat, leaving: nat, after: Base) {
    && |before.basis| == |before.inverse| == |before.values| == |factors| == |after.inverse|
    && Even(before.inverse, |factors|) && Even(after.inverse, |factors|)
    && Least(before.values, factors, leaving)
    && after.basis == before.basis[leaving := entering]
    && Pivoted(before.inverse, factors, leaving, after.inverse, |factors|)
    && after.values == Raised(ValuesAfter(before.values, factors, leaving))
  }

  /** A pivot taken: what it found, which variable entered for which row's, what it left. */
  datatype Turn = Turn(before: Base, factors: seq<real>, entering: nat, leaving: nat, after: Base)

  /** Pivots taken one after another, the last of them leaving the basis there is now. */
  ghost predicate Chained(turns: seq<Turn>, now: Base) {
    && (forall k | 0 <= k < |turns| ::
          Turned(turns[k].before, turns[k].factors, turns[k].entering, turns[k].leaving, turns[k].after))
    && (forall k | 0 < k < |turns| :: turns[k].before == turns[k - 1].after)
    && (turns != [] ==> turns[|turns| - 1].after == now)
  }

  /** No pivot came across a factor that is above nothing and yet too small to move its row. */
  ghost predicate AllMove(turns: seq<Turn>) {
    forall k | 0 <= k < |turns| :: FactorsMove(turns[k].factors)
  }

  ghost predicate FactorsMove(factors: seq<real>) {
    forall r | 0 <= r < |factors| :: factors[r] <= 0.0 || factors[r] > MOVED_AT_LEAST
  }

  lemma ChainedOn(turns: seq<Turn>, turn: Turn)
    requires Chained(turns, turn.before)
    requires Turned(turn.before, turn.factors, turn.entering, turn.leaving, turn.after)
    ensures Chained(turns + [turn], turn.after)
    ensures AllMove(turns + [turn]) ==> AllMove(turns) && FactorsMove(turn.factors)
  {
    var more := turns + [turn];
    forall k | 0 <= k < |more|
      ensures Turned(more[k].before, more[k].factors, more[k].entering, more[k].leaving, more[k].after)
      ensures k > 0 ==> more[k].before == more[k - 1].after
    {
      assert k < |turns| ==> more[k] == turns[k];
    }
    if AllMove(more) {
      assert more[|turns|] == turn;
      forall k | 0 <= k < |turns| ensures FactorsMove(turns[k].factors) {
        assert more[k] == turns[k];
      }
    }
  }

  function ValuesAfter(values: seq<real>, column: seq<real>, leaving: nat): (after: seq<real>)
    requires leaving < |values| == |column| && column[leaving] > MOVED_AT_LEAST
    ensures |after| == |values|
    ensures after[leaving] == Ratio(values, column, leaving)
    ensures forall r | 0 <= r < |values| && r != leaving ::
      after[r] == Added(values[r], -column[r], Ratio(values, column, leaving))
  {
    seq(|values|, r requires 0 <= r < |values| =>
      if r == leaving then Ratio(values, column, leaving)
      else Added(values[r], -column[r], Ratio(values, column, leaving)))
  }

  /** A row whose value the pivot would take under nothing. */
  ghost predicate Dips(values: seq<real>, column: seq<real>, leaving: nat, r: nat)
    requires leaving < |values| == |column| && r < |values| && column[leaving] > MOVED_AT_LEAST
  {
    ValuesAfter(values, column, leaving)[r] < 0.0
  }

  ghost predicate NoneDips(values: seq<real>, column: seq<real>, leaving: nat)
    requires leaving < |values| == |column| && column[leaving] > MOVED_AT_LEAST
  {
    forall r | 0 <= r < |values| :: !Dips(values, column, leaving, r)
  }

  /** The leaving row divided by its own factor, and every other row less its factor times
      that; a row without a factor is left as it is. */
  method Eliminated(inverse: Matrix, column: seq<real>, leaving: nat, covers: nat) returns (next: Matrix)
    requires |inverse| == |column| == covers && Even(inverse, covers)
    requires leaving < covers && column[leaving] != 0.0
    ensures |next| == covers && Even(next, covers)
    ensures Pivoted(inverse, column, leaving, next, covers)
  {
    var pivot := column[leaving];
    var pivoted := seq(covers, c requires 0 <= c < covers => inverse[leaving][c] / pivot);
    Divided(inverse[leaving], pivot, pivoted, covers);
    next := [];
    for r := 0 to covers
      invariant |next| == r
      invariant forall q | 0 <= q < r ::
        next[q] == if q == leaving then pivoted else AddedTo(inverse[q], -column[q], pivoted)
    {
      if r == leaving {
        next := next + [pivoted];
      } else if column[r] == 0.0 {
        AddedNothing(inverse[r], pivoted);
        next := next + [inverse[r]];
      } else {
        next := next + [AddedTo(inverse[r], -column[r], pivoted)];
      }
    }
  }

  lemma BasedKept(
    tones: Tones, covering: seq<bool>, basis: seq<nat>, inverse: Matrix, values: seq<real>, entering: nat,
    column: seq<real>, leaving: nat, next: Matrix)
    requires tones.Valid() && Based(tones, covering, basis, inverse, values)
    requires entering < tones.Points() + tones.covers
    requires column == Modelled(inverse, tones.covers, ColumnOf(tones, covering, entering))
    requires leaving < tones.covers && column[leaving] > MOVED_AT_LEAST
    requires |next| == tones.covers && Even(next, tones.covers)
    requires Pivoted(inverse, column, leaving, next, tones.covers)
    ensures Based(tones, covering, basis[leaving := entering], next, Raised(ValuesAfter(values, column, leaving)))
  {
    InvertsKept(inverse, ColumnsOf(tones, covering, basis), tones.covers,
      ColumnOf(tones, covering, entering), leaving, next);
    Exchanged(tones, covering, basis, leaving, entering);
  }

  lemma AddedNothing(before: seq<real>, more: seq<real>)
    requires |before| == |more|
    ensures AddedTo(before, 0.0, more) == before && AddedTo(before, -0.0, more) == before
  {
    forall j | 0 <= j < |before| ensures Added(before[j], 0.0, more[j]) == before[j] {
    }
  }

  lemma Divided(row: seq<real>, pivot: real, pivoted: seq<real>, covers: nat)
    requires |row| == |pivoted| == covers && pivot != 0.0
    requires forall c | 0 <= c < covers :: pivoted[c] == row[c] / pivot
    ensures row == Scaled(pivot, pivoted)
  {
    forall c | 0 <= c < covers ensures row[c] == pivot * pivoted[c] {
    }
  }

  /** Exact values stay exact through a pivot just where none of them dips. */
  lemma ExactAfter(
    inverse: Matrix, prices: seq<real>, values: seq<real>, column: seq<real>, leaving: nat, next: Matrix, covers: nat)
    requires |inverse| == |next| == |prices| == |values| == |column| == covers
    requires Even(inverse, covers) && Even(next, covers)
    requires leaving < covers && column[leaving] > MOVED_AT_LEAST
    requires Pivoted(inverse, column, leaving, next, covers)
    requires values == Modelled(inverse, covers, prices)
    ensures ValuesAfter(values, column, leaving) == Modelled(next, covers, prices)
    ensures Raised(ValuesAfter(values, column, leaving)) == Modelled(next, covers, prices)
      <==> NoneDips(values, column, leaving)
  {
    var after := ValuesAfter(values, column, leaving);
    forall r | 0 <= r < covers ensures after[r] == Dot(next[r], prices, covers) {
      PivotedApplied(inverse, column, leaving, next, covers, prices, r);
      RatioFound(values[leaving], column[leaving], Dot(next[leaving], prices, covers));
    }
    assert after == Modelled(next, covers, prices);
    if r :| 0 <= r < covers && Dips(values, column, leaving, r) {
      assert Raised(after)[r] != after[r];
    } else {
      forall r | 0 <= r < covers ensures Raised(after)[r] == after[r] {
        assert !Dips(values, column, leaving, r);
      }
    }
  }

  lemma RatioFound(value: real, factor: real, found: real)
    requires factor != 0.0 && value == factor * found
    ensures value / factor == found
  {
  }

  /** Where every factor that is above nothing is one that moves its row, no value dips. */
  lemma EveryFactorMoves(values: seq<real>, column: seq<real>, leaving: nat)
    requires Least(values, column, leaving) && forall r | 0 <= r < |values| :: values[r] >= 0.0
    requires FactorsMove(column)
    ensures NoneDips(values, column, leaving)
  {
    var ratio := Ratio(values, column, leaving);
    RatioHolds(values[leaving], column[leaving], ratio);
    forall r | 0 <= r < |values| && r != leaving ensures !Dips(values, column, leaving, r) {
      if column[r] > MOVED_AT_LEAST {
        RatioHolds(values[r], column[r], Ratio(values, column, r));
        Weighed(column[r], ratio, Ratio(values, column, r));
      } else {
        NeverNegative(-column[r], ratio);
      }
    }
  }

  lemma RatioHolds(value: real, factor: real, ratio: real)
    requires value >= 0.0 && factor > 0.0 && ratio == value / factor
    ensures ratio >= 0.0 && factor * ratio == value
  {
  }

  /** The gains of the basic points against the rows of the inverse. */
  ghost function WeightsOf(
    basis: seq<nat>, inverse: Matrix, apart: seq<real>, points: nat, covers: nat): (weights: seq<real>)
    requires |basis| == |inverse| == covers && Even(inverse, covers) && |apart| == points
    ensures |weights| == covers
  {
    Against(inverse, covers, Chosen(basis, apart, points), covers)
  }

  // ---------------------------------------------------------------- prices and gains

  /** None of the weights covers everything wanted. */
  ghost predicate NoneCovers(tones: Tones, prices: seq<real>, apart: seq<real>, tried: seq<seq<real>>)
    requires tones.Valid() && |prices| == tones.covers && |apart| == tones.Points()
  {
    forall k | 0 <= k < |tried| :: |tried[k]| == tones.covers &&
      Uncovered(apart, Modelled(tones.Shares(), tones.covers, KeptWeights(tried[k], prices)))
  }

  function CheaperOf(one: Option<Paid>, other: Option<Paid>): Option<Paid> {
    if other.Some? && (one.None? || other.value.paid < one.value.paid) then other else one
  }

  predicate Settled(paid: real, reached: real) {
    paid <= reached * (1.0 + SETTLED_WITHIN)
  }

  function Worthwhile(apart: seq<real>): real {
    GAINED_AT_LEAST * Max(LargestOf(apart), 1.0)
  }

  /** The weights on the covers that are counted. */
  ghost function Counting(covering: seq<bool>, weights: seq<real>): (counting: seq<real>)
    requires |covering| == |weights|
    ensures |counting| == |weights|
    ensures forall c | 0 <= c < |weights| :: counting[c] == if covering[c] then weights[c] else 0.0
  {
    seq(|weights|, c requires 0 <= c < |weights| => if covering[c] then weights[c] else 0.0)
  }

  /** What a variable would add for each unit of it brought in: its own gain, less what the
      weights already charge for its column. */
  ghost function GainOf(tones: Tones, covering: seq<bool>, apart: seq<real>, weights: seq<real>, variable: nat): real
    requires tones.Valid() && |covering| == |weights| == tones.covers && |apart| == tones.Points()
    requires variable < tones.Points() + tones.covers
  {
    (if variable < tones.Points() then apart[variable] else 0.0)
      - Dot(weights, ColumnOf(tones, covering, variable), tones.covers)
  }

  lemma KeptIsCounting(weights: seq<real>, prices: seq<real>, covering: seq<bool>)
    requires |weights| == |prices| == |covering|
    requires forall c | 0 <= c < |prices| :: covering[c] <==> prices[c] > 0.0
    ensures Counting(covering, Raised(weights)) == KeptWeights(weights, prices)
  {
  }

  /** What the weights, and what those of them above nothing, lay over every point. */
  method Cover(tones: Tones, covering: seq<bool>, weights: seq<real>, kept: seq<real>, covers: nat)
    returns (over: seq<real>, overKept: seq<real>)
    requires tones.Valid() && covers == tones.covers == |covering| == |weights| && kept == Raised(weights)
    ensures over == Modelled(tones.Shares(), covers, Counting(covering, weights))
    ensures overKept == Modelled(tones.Shares(), covers, Counting(covering, kept))
  {
    ghost var counting, countingKept := Counting(covering, weights), Counting(covering, kept);
    var covered := new real[tones.Points()](_ => 0.0);
    var coveredKept := new real[tones.Points()](_ => 0.0);
    CoveredFrom(tones, counting, covered[..]);
    CoveredFrom(tones, countingKept, coveredKept[..]);
    for cover := 0 to covers
      invariant CoveredBy(tones, counting, cover, covered[..])
      invariant CoveredBy(tones, countingKept, cover, coveredKept[..])
    {
      Lay(tones, counting, cover, if covering[cover] then weights[cover] else 0.0, covered);
      Lay(tones, countingKept, cover, if covering[cover] then kept[cover] else 0.0, coveredKept);
    }
    over, overKept := covered[..], coveredKept[..];
  }

  method Steepest(
    tones: Tones, covering: seq<bool>, apart: seq<real>, covered: seq<real>, weights: seq<real>, points: nat,
    covers: nat)
    returns (best: Option<nat>)
    requires tones.Valid() && covers == tones.covers == |covering| == |weights|
    requires points == tones.Points() == |apart|
    requires covered == Modelled(tones.Shares(), covers, Counting(covering, weights))
    ensures best.None? <==> forall v | 0 <= v < points + covers ::
      GainOf(tones, covering, apart, weights, v) <= Worthwhile(apart)
    ensures best.Some? ==>
      && best.value < points + covers && GainOf(tones, covering, apart, weights, best.value) > Worthwhile(apart)
      && forall v | 0 <= v < points + covers ::
           GainOf(tones, covering, apart, weights, v) <= GainOf(tones, covering, apart, weights, best.value)
  {
    ghost var gains := GainsFrom(apart, covered, weights);
    GainsAre(tones, covering, apart, covered, weights, points, covers, gains);
    best := MostGained(apart, covered, weights, Worthwhile(apart), gains);
  }

  ghost function GainsFrom(apart: seq<real>, covered: seq<real>, weights: seq<real>): (gains: seq<real>)
    requires |apart| == |covered|
    ensures |gains| == |apart| + |weights|
    ensures forall p | 0 <= p < |apart| :: gains[p] == apart[p] - covered[p]
    ensures forall v | |apart| <= v < |gains| :: gains[v] == -weights[v - |apart|]
  {
    seq(|apart| + |weights|, v requires 0 <= v < |apart| + |weights| =>
      if v < |apart| then apart[v] - covered[v] else -weights[v - |apart|])
  }

  lemma GainsAre(
    tones: Tones, covering: seq<bool>, apart: seq<real>, covered: seq<real>, weights: seq<real>, points: nat,
    covers: nat, gains: seq<real>)
    requires tones.Valid() && covers == tones.covers == |covering| == |weights| && points == tones.Points() == |apart|
    requires covered == Modelled(tones.Shares(), covers, Counting(covering, weights))
    requires gains == GainsFrom(apart, covered, weights)
    ensures forall v | 0 <= v < points + covers :: GainOf(tones, covering, apart, weights, v) == gains[v]
  {
    forall v | 0 <= v < points + covers ensures GainOf(tones, covering, apart, weights, v) == gains[v] {
      if v < points {
        PointGains(tones, covering, apart, covered, weights, v, points, covers);
      } else {
        SlackGains(tones, covering, apart, weights, v - points, points, covers);
      }
    }
  }

  method MostGained(
    apart: seq<real>, covered: seq<real>, weights: seq<real>, least: real, ghost gains: seq<real>)
    returns (best: Option<nat>)
    requires |apart| == |covered| && |gains| == |apart| + |weights|
    requires forall p | 0 <= p < |apart| :: gains[p] == apart[p] - covered[p]
    requires forall v | |apart| <= v < |gains| :: gains[v] == -weights[v - |apart|]
    ensures best.None? ==> forall v | 0 <= v < |gains| :: gains[v] <= least
    ensures best.Some? ==> best.value < |gains| && gains[best.value] > least
    ensures best.Some? ==> forall v | 0 <= v < |gains| :: gains[v] <= gains[best.value]
  {
    var most := least;
    best := None;
    for p := 0 to |apart|
      invariant Most(gains, p, least, best, most)
    {
      if apart[p] - covered[p] > most {
        best, most := Some(p), apart[p] - covered[p];
      }
    }
    for node := 0 to |weights|
      invariant Most(gains, |apart| + node, least, best, most)
    {
      assert gains[|apart| + node] == -weights[node];
      if -weights[node] > most {
        best, most := Some(|apart| + node), -weights[node];
      }
    }
  }

  /** Of the first so many gains, the most above the least there may be, and whose it is. */
  ghost predicate Most(gains: seq<real>, upto: nat, least: real, best: Option<nat>, most: real)
    requires upto <= |gains|
  {
    && (best.None? ==> most == least)
    && (best.Some? ==> best.value < upto && most == gains[best.value] > least)
    && forall v | 0 <= v < upto :: gains[v] <= most
  }

  lemma PointGains(
    tones: Tones, covering: seq<bool>, apart: seq<real>, covered: seq<real>, weights: seq<real>, p: nat, points: nat,
    covers: nat)
    requires tones.Valid() && covers == tones.covers == |covering| == |weights|
    requires p < points == tones.Points() == |apart|
    requires covered == Modelled(tones.Shares(), covers, Counting(covering, weights))
    ensures GainOf(tones, covering, apart, weights, p) == apart[p] - covered[p]
  {
    DotMasked(tones.Shares()[p], Counting(covering, weights), ColumnOf(tones, covering, p), weights, covering, covers);
    DotCommutes(weights, ColumnOf(tones, covering, p), covers);
  }

  /** Masking the one vector or the other is the same to their sum. */
  lemma {:induction false} DotMasked(
    a: seq<real>, b: seq<real>, c: seq<real>, d: seq<real>, covering: seq<bool>, n: nat)
    requires n <= |a| && n <= |b| && n <= |c| && n <= |d| && n <= |covering|
    requires forall i | 0 <= i < n :: b[i] == if covering[i] then d[i] else 0.0
    requires forall i | 0 <= i < n :: c[i] == if covering[i] then a[i] else 0.0
    ensures Dot(a, b, n) == Dot(c, d, n)
  {
    if n > 0 {
      var i := n - 1;
      DotMasked(a, b, c, d, covering, i);
      assert Dot(a, b, n) == Dot(a, b, i) + a[i] * b[i];
      assert Dot(c, d, n) == Dot(c, d, i) + c[i] * d[i];
      Masked(a[i], b[i], c[i], d[i], covering[i]);
    }
  }

  lemma Masked(a: real, b: real, c: real, d: real, counted: bool)
    requires b == if counted then d else 0.0
    requires c == if counted then a else 0.0
    ensures a * b == c * d
  {
  }

  lemma SlackGains(
    tones: Tones, covering: seq<bool>, apart: seq<real>, weights: seq<real>, node: nat, points: nat, covers: nat)
    requires tones.Valid() && node < covers == tones.covers == |covering| == |weights|
    requires points == tones.Points() == |apart|
    ensures GainOf(tones, covering, apart, weights, points + node) == -weights[node]
  {
    var slack := ColumnOf(tones, covering, points + node);
    DotUnit(slack, node, weights, covers);
    DotCommutes(weights, slack, covers);
  }

  /** The weights charge a basic variable exactly what it gains. */
  lemma BasicGains(
    tones: Tones, covering: seq<bool>, basis: seq<nat>, inverse: Matrix, apart: seq<real>, points: nat, covers: nat,
    variable: nat)
    requires tones.Valid() && covers == tones.covers == |covering| == |basis| && points == tones.Points() == |apart|
    requires forall s | 0 <= s < covers :: basis[s] < points + covers
    requires Inverts(inverse, ColumnsOf(tones, covering, basis), covers)
    requires variable in basis
    ensures GainOf(tones, covering, apart, WeightsOf(basis, inverse, apart, points, covers), variable) == 0.0
  {
    var s :| 0 <= s < covers && basis[s] == variable;
    var columns, chosen := ColumnsOf(tones, covering, basis), Chosen(basis, apart, points);
    SummedEitherWay(inverse, covers, chosen, columns[s], covers);
    var unit := Modelled(inverse, covers, columns[s]);
    forall r | 0 <= r < covers ensures unit[r] == Unit(r, s) {
      assert Paired(inverse, columns, covers, r, s);
    }
    DotUnit(unit, s, chosen, covers);
    DotCommutes(unit, chosen, covers);
  }

  method PaidWith(
    tones: Tones, prices: seq<real>, apart: seq<real>, weights: seq<real>, kept: seq<real>, covered: seq<real>,
    covers: nat)
    returns (paid: Option<Paid>)
    requires tones.Valid() && covers == tones.covers == |prices| == |weights| && |apart| == tones.Points()
    requires forall c | 0 <= c < covers :: prices[c] >= 0.0
    requires kept == Raised(weights)
    requires covered == Modelled(tones.Shares(), covers, KeptWeights(weights, prices))
    ensures paid.Some? ==> tones.Bounds(prices, apart, paid.value.paid) && |paid.value.weights| == tones.covers
    ensures paid.None? <==> Uncovered(apart, covered)
  {
    CoveredShows(tones, KeptWeights(weights, prices), covers, covered);
    var scale := ScaleOver(apart, covered);
    var sum := SumOver(kept, prices, covers);
    KeptPays(weights, prices, covers);
    if scale.Some? {
      var most := scale.value * sum;
      KeptBound(tones, weights, prices, apart, covered, scale.value, sum, most, covers);
      paid := Some(Paid(most, Scaled(scale.value, kept)));
    } else {
      paid := None;
    }
  }

  method SumOver(kept: seq<real>, prices: seq<real>, covers: nat) returns (sum: real)
    requires |kept| == |prices| == covers
    ensures sum == Dot(kept, prices, covers)
  {
    sum := 0.0;
    for c := 0 to covers
      invariant sum == Dot(kept, prices, c)
    {
      sum := sum + kept[c] * prices[c];
    }
  }

  lemma CoveredShows(tones: Tones, kept: seq<real>, covers: nat, covered: seq<real>)
    requires tones.Valid() && covers == tones.covers == |kept| && covered == Modelled(tones.Shares(), covers, kept)
    requires forall c | 0 <= c < covers :: kept[c] >= 0.0
    ensures forall p | 0 <= p < |covered| :: covered[p] >= 0.0
  {
    forall p | 0 <= p < |covered| ensures covered[p] >= 0.0 {
      SharesShow(tones, p);
      DotNeverNegative(tones.Shares()[p], kept, covers);
    }
  }

  /** A cover without a price adds nothing to what is paid. */
  lemma {:induction false} KeptPays(weights: seq<real>, prices: seq<real>, n: nat)
    requires n <= |weights| == |prices| && forall c | 0 <= c < |prices| :: prices[c] >= 0.0
    ensures Dot(Raised(weights), prices, n) == Dot(KeptWeights(weights, prices), prices, n)
  {
    if n > 0 {
      var c := n - 1;
      KeptPays(weights, prices, c);
      var raised, kept := Raised(weights), KeptWeights(weights, prices);
      assert Dot(raised, prices, n) == Dot(raised, prices, c) + raised[c] * prices[c];
      assert Dot(kept, prices, n) == Dot(kept, prices, c) + kept[c] * prices[c];
      if prices[c] == 0.0 {
        assert raised[c] * prices[c] == 0.0 == kept[c] * prices[c];
      } else {
        assert raised[c] == kept[c];
      }
    }
  }

  // ---------------------------------------------------------------- what a basis reaches

  /** What the weights pay at the prices is what the basis reaches, while its values are
      exact. */
  lemma ReachedIsPaid(basis: seq<nat>, inverse: Matrix, prices: seq<real>, apart: seq<real>, points: nat, covers: nat)
    requires |basis| == |inverse| == |prices| == covers && Even(inverse, covers) && |apart| == points
    ensures Dot(WeightsOf(basis, inverse, apart, points, covers), prices, covers)
         == Dot(Mixed(basis, Modelled(inverse, covers, prices), points, covers), apart, points)
  {
    var chosen := Chosen(basis, apart, points);
    SummedEitherWay(inverse, covers, chosen, prices, covers);
    MixedTakes(basis, Modelled(inverse, covers, prices), points, apart, covers);
  }

  /** Where no variable gains anything, what the basis reaches is the most any mix the prices
      allow sounds like. */
  lemma NothingGains(
    tones: Tones, covering: seq<bool>, prices: seq<real>, basis: seq<nat>, inverse: Matrix, apart: seq<real>,
    points: nat, covers: nat)
    requires tones.Valid() && covers == tones.covers == |covering| == |basis| == |prices| == |inverse|
    requires Even(inverse, covers) && points == tones.Points() == |apart|
    requires forall c | 0 <= c < covers :: prices[c] >= 0.0 && (covering[c] <==> prices[c] > 0.0)
    requires forall v | 0 <= v < points + covers ::
      GainOf(tones, covering, apart, WeightsOf(basis, inverse, apart, points, covers), v) <= 0.0
    ensures tones.Bounds(prices, apart,
      tones.Sounding(apart, Mixed(basis, Modelled(inverse, covers, prices), points, covers)))
  {
    var weights := WeightsOf(basis, inverse, apart, points, covers);
    var kept := KeptWeights(weights, prices);
    forall c | 0 <= c < covers ensures weights[c] >= 0.0 {
      SlackGains(tones, covering, apart, weights, c, points, covers);
    }
    assert Counting(covering, weights) == kept;
    var covered := Modelled(tones.Shares(), covers, kept);
    forall p | 0 <= p < points ensures Enough(apart, 1.0, covered, p) {
      PointGains(tones, covering, apart, covered, weights, p, points, covers);
    }
    assert Raised(weights) == weights;
    KeptPays(weights, prices, covers);
    ReachedIsPaid(basis, inverse, prices, apart, points, covers);
    var most := Dot(kept, prices, covers);
    KeptBound(tones, weights, prices, apart, covered, 1.0, most, most, covers);
  }

  /** A pivot under which nothing dips raises what the basis reaches by the entering
      variable's gain for each unit of it brought in. */
  lemma ReachedRises(
    tones: Tones, covering: seq<bool>, before: Base, entering: nat, leaving: nat, after: Base, apart: seq<real>,
    points: nat, covers: nat)
    requires tones.Valid() && covers == tones.covers == |covering| && points == tones.Points() == |apart|
    requires entering < points + covers && |before.inverse| == |before.basis| == covers && Even(before.inverse, covers)
    requires Turned(before, Modelled(before.inverse, covers, ColumnOf(tones, covering, entering)),
      entering, leaving, after)
    requires NoneDips(before.values, Modelled(before.inverse, covers, ColumnOf(tones, covering, entering)), leaving)
    ensures tones.Sounding(apart, Mixed(after.basis, after.values, points, covers))
         == Added(tones.Sounding(apart, Mixed(before.basis, before.values, points, covers)), after.values[leaving],
              GainOf(tones, covering, apart, WeightsOf(before.basis, before.inverse, apart, points, covers), entering))
  {
    var column := ColumnOf(tones, covering, entering);
    var factors := Modelled(before.inverse, covers, column);
    var chosen, chosenAfter := Chosen(before.basis, apart, points), Chosen(after.basis, apart, points);
    var gain := if entering < points then apart[entering] else 0.0;
    MixedTakes(before.basis, before.values, points, apart, covers);
    MixedTakes(after.basis, after.values, points, apart, covers);
    SummedEitherWay(before.inverse, covers, chosen, column, covers);
    TakenRises(before.values, factors, leaving, after.values, chosen, chosenAfter, gain, covers);
  }

  lemma TakenRises(
    values: seq<real>, factors: seq<real>, leaving: nat, after: seq<real>, chosen: seq<real>, chosenAfter: seq<real>,
    gain: real, covers: nat)
    requires |values| == |factors| == |after| == |chosen| == |chosenAfter| == covers
    requires Least(values, factors, leaving) && NoneDips(values, factors, leaving)
    requires after == Raised(ValuesAfter(values, factors, leaving))
    requires chosenAfter == chosen[leaving := gain]
    ensures after[leaving] == Ratio(values, factors, leaving)
    ensures Dot(chosenAfter, after, covers)
         == Added(Dot(chosen, values, covers), after[leaving], gain - Dot(chosen, factors, covers))
  {
    var ratio := Ratio(values, factors, leaving);
    var emptied := AddedTo(values, -ratio, factors);
    ValuesTurned(values, factors, leaving, after, emptied);
    // the old values without what the column takes, then the entering variable alone
    DotAddedTo(values, -ratio, factors, emptied, chosen, covers);
    DotChanged(emptied, leaving, ratio, after, chosenAfter, covers);
    DotChanged(chosen, leaving, gain - chosen[leaving], chosenAfter, emptied, covers);
    DotCommutes(chosen, values, covers);
    DotCommutes(chosen, factors, covers);
    DotCommutes(emptied, chosen, covers);
    DotCommutes(chosenAfter, emptied, covers);
    DotCommutes(chosenAfter, after, covers);
    Swept(Dot(chosen, values, covers), ratio, gain, Dot(chosen, factors, covers));
  }

  lemma Swept(before: real, ratio: real, gain: real, charged: real)
    ensures before + -ratio * charged + ratio * gain == Added(before, ratio, gain - charged)
  {
  }

  lemma ValuesTurned(values: seq<real>, factors: seq<real>, leaving: nat, after: seq<real>, emptied: seq<real>)
    requires Least(values, factors, leaving) && NoneDips(values, factors, leaving)
    requires after == Raised(ValuesAfter(values, factors, leaving))
    requires emptied == AddedTo(values, -Ratio(values, factors, leaving), factors)
    ensures emptied[leaving] == 0.0 && after[leaving] == Ratio(values, factors, leaving)
    ensures forall r | 0 <= r < |values| && r != leaving :: after[r] == emptied[r]
  {
    var ratio := Ratio(values, factors, leaving);
    assert !Dips(values, factors, leaving, leaving);
    forall r | 0 <= r < |values| && r != leaving ensures after[r] == emptied[r] {
      assert !Dips(values, factors, leaving, r);
      Either(values[r], ratio, factors[r]);
    }
    EmptiedWhole(values[leaving], factors[leaving], ratio);
  }

  lemma EmptiedWhole(value: real, factor: real, ratio: real)
    requires factor != 0.0 && ratio == value / factor
    ensures Added(value, -ratio, factor) == 0.0
  {
    assert ratio * factor == value;
  }

  /** No variable is twice in a basis that is inverted. */
  lemma NoneTwice(tones: Tones, covering: seq<bool>, basis: seq<nat>, inverse: Matrix, values: seq<real>)
    requires tones.Valid() && Based(tones, covering, basis, inverse, values)
    ensures forall r, s | 0 <= r < s < |basis| :: basis[r] != basis[s]
  {
    forall r, s | 0 <= r < s < |basis| ensures basis[r] != basis[s] {
      var columns := ColumnsOf(tones, covering, basis);
      if basis[r] == basis[s] {
        assert columns[r] == columns[s];
        ColumnsApart(inverse, columns, tones.covers, r, s);
      }
    }
  }

  // ---------------------------------------------------------------- a value that dips

  /** So little of a tone that it does not move a row. */
  ghost predicate Scarce(share: real) {
    0.0 < share <= MOVED_AT_LEAST
  }

  /** One tone under two covers, the first of which takes only a share of it. */
  function OneTone(share: real): (tones: Tones) {
    Tones(2, [0, 2], [(0, share), (1, 1.0)], [Reach(0, [share]), Reach(0, [1.0])])
  }

  lemma Scatters(share: real, entries: seq<(nat, real)>, covers: nat)
    requires entries == [(0, share), (1, 1.0)] && covers == 2
    ensures Scattered(entries, covers) == [share, 1.0]
  {
    var one := entries[..1];
    assert one[..0] == [] && one[0] == (0, share);
    assert Scattered(one, covers) == [share, 0.0];
  }

  lemma OneToneValid(share: real, tones: Tones)
    requires share > 0.0 && tones == OneTone(share)
    ensures tones.Valid() && tones.Points() == 1 && tones.Shares()[0] == [share, 1.0]
  {
    var starts, passed := tones.starts, tones.passed;
    OneToneRanged(share, starts, passed);
    Scatters(share, PassedAt(starts, passed, 0), tones.covers);
    OneAgrees(starts, passed, 0, share);
    OneAgrees(starts, passed, 1, 1.0);
  }

  lemma OneToneRanged(share: real, starts: seq<nat>, passed: seq<(nat, real)>)
    requires share > 0.0 && starts == [0, 2] && passed == [(0, share), (1, 1.0)]
    ensures Ranged(starts, passed, 2) && PassedAt(starts, passed, 0) == passed
  {
  }

  lemma OneAgrees(starts: seq<nat>, passed: seq<(nat, real)>, cover: nat, share: real)
    requires Ranged(starts, passed, 2) && |starts| == 2 && cover < 2 && ShareRow(starts, passed, 2, 0)[cover] == share
    ensures Agrees(Reach(0, [share]), starts, passed, 2, cover)
  {
  }

  /** The first cover's price lets it sound at half. */
  lemma OneToneAtMost(share: real, tones: Tones, prices: seq<real>, apart: seq<real>)
    requires share > 0.0 && tones == OneTone(share) && tones.Valid() && tones.Points() == |apart| == 1
    requires prices == [share / 2.0, 1.0] && apart[0] == 1.0
    ensures tones.Bounds(prices, apart, 0.5)
  {
    OneToneValid(share, tones);
    forall mix | tones.Allowed(prices, mix) ensures tones.Sounding(apart, mix) <= 0.5 {
      HeldOfOne(tones, mix, 0, share);
      DotOfOne(mix, apart, 1.0);
      assert tones.Held(mix)[0] <= prices[0] == share / 2.0;
      AtMostHalf(mix[0], share, tones.Held(mix)[0]);
    }
  }

  lemma AtMostHalf(level: real, share: real, held: real)
    requires share > 0.0 && held == level * share && held <= share / 2.0
    ensures level <= 0.5
  {
    var over := level - 0.5;
    assert over * share <= 0.0;
  }

  lemma HeldOfOne(tones: Tones, mix: seq<real>, c: nat, share: real)
    requires tones.Valid() && tones.Points() == |mix| == 1 && c < tones.covers && share == tones.Shares()[0][c]
    ensures tones.Held(mix)[c] == mix[0] * share
  {
    AgainstOne(tones.Shares(), tones.covers, mix, c, 1);
    DotOfOne(mix, Column(tones.Shares(), tones.covers, c), share);
  }

  lemma DotOfOne(one: seq<real>, other: seq<real>, times: real)
    requires |one| == |other| == 1 && other[0] == times
    ensures Dot(one, other, 1) == one[0] * times
  {
    assert Dot(one, other, 0) == 0.0;
    SameProducts(one[0], other[0], one[0], times);
  }

  /** The first round of a bound on it: the tone enters, the second cover's row is the only one its
      column moves, the first's value dips and is raised, and what the basis then sounds like is
      twice what any mix the prices allow comes to. A bound to be beaten by anything between is
      given up although nothing allowed beats it. */
  method BeatenByNone(share: real) returns (reached: real)
    requires Scarce(share)
    ensures OneTone(share).Valid() && OneTone(share).Bounds([share / 2.0, 1.0], [1.0], 0.5) && reached == 1.0
  {
    var tones, prices, apart := OneTone(share), [share / 2.0, 1.0], [1.0];
    OneToneValid(share, tones);
    OneToneAtMost(share, tones, prices, apart);
    var solving := new Solving.Over(tones, prices);
    assert solving.prices == prices;
    var entering := FirstRound(solving, share, apart);
    SlacksOnly(share, tones, solving.covering, solving.inverse, solving.values, prices);
    ghost var before, factors := solving.Now(), solving.Factors(entering);
    var moved, leaving := solving.Pivot(entering);
    Dipped(before, factors, leaving, share, solving.Now());
    MixedTakes(solving.basis, solving.values, 1, apart, 2);
    ChosenSounds(solving.basis, solving.values, apart);
    reached := solving.Reached(apart);
  }

  /** With nothing but slacks in the basis no weight is anything, and the tone gains. */
  method FirstRound(solving: Solving, share: real, apart: seq<real>) returns (entering: nat)
    requires share > 0.0 && solving.Valid() && solving.tones == OneTone(share) && apart == [1.0]
    requires solving.basis == [1, 2] && solving.inverse == Identity(2) && solving.tones.Points() == 1
    ensures entering == 0
  {
    var weights := solving.Weights(apart);
    SlacksGain(solving.tones, solving.covering, solving.basis, solving.inverse, apart, weights);
    var found, paid := solving.Priced(apart, weights);
    assert found.Some?;
    entering := found.value;
    assert solving.basis[0] == 1 && solving.basis[1] == 2;
  }

  lemma Dipped(before: Base, factors: seq<real>, leaving: nat, share: real, after: Base)
    requires Scarce(share) && Turned(before, factors, 0, leaving, after)
    requires before.basis == [1, 2] && before.values == [share / 2.0, 1.0] && factors == [share, 1.0]
    ensures leaving == 1 && after.basis == [1, 0] && after.values == [0.0, 1.0]
    ensures !NoneDips(before.values, factors, leaving)
  {
    assert factors[0] <= MOVED_AT_LEAST;
    assert Ratio(before.values, factors, 1) == 1.0;
    var moved := ValuesAfter(before.values, factors, 1);
    assert moved[0] == share / 2.0 + -share * 1.0;
    assert Dips(before.values, factors, 1, 0);
  }

  lemma ChosenSounds(basis: seq<nat>, values: seq<real>, apart: seq<real>)
    requires basis == [1, 0] && values == [0.0, 1.0] && apart == [1.0]
    ensures Dot(Chosen(basis, apart, 1), values, 2) == 1.0
  {
    var chosen := Chosen(basis, apart, 1);
    assert chosen[0] == 0.0 && chosen[1] == 1.0;
    assert Dot(chosen, values, 0) == 0.0;
    assert Dot(chosen, values, 1) == 0.0 + chosen[0] * values[0];
    assert Dot(chosen, values, 2) == Dot(chosen, values, 1) + chosen[1] * values[1];
  }

  lemma SlacksOnly(
    share: real, tones: Tones, covering: seq<bool>, inverse: Matrix, values: seq<real>, prices: seq<real>)
    requires share > 0.0 && tones == OneTone(share) && tones.Valid() && tones.Points() == 1
    requires covering == [true, true] && inverse == Identity(2)
    requires |prices| == 2 && values == Modelled(inverse, 2, prices)
    ensures values == prices && Modelled(inverse, 2, ColumnOf(tones, covering, 0)) == [share, 1.0]
  {
    OneToneValid(share, tones);
    var column := ColumnOf(tones, covering, 0);
    assert column == [share, 1.0];
    UnitsGiveBack(inverse, column);
    UnitsGiveBack(inverse, prices);
  }

  lemma UnitsGiveBack(inverse: Matrix, x: seq<real>)
    requires inverse == Identity(|x|)
    ensures Modelled(inverse, |x|, x) == x
  {
    forall r | 0 <= r < |x| ensures Modelled(inverse, |x|, x)[r] == x[r] {
      DotUnit(inverse[r], r, x, |x|);
    }
  }

  lemma SlacksGain(
    tones: Tones, covering: seq<bool>, basis: seq<nat>, inverse: Matrix, apart: seq<real>, weights: seq<real>)
    requires tones.Valid() && tones.Points() == 1 && tones.covers == |covering| == 2
    requires basis == [1, 2] && inverse == Identity(2) && apart == [1.0]
    requires weights == WeightsOf(basis, inverse, apart, 1, 2)
    ensures GainOf(tones, covering, apart, weights, 0) > Worthwhile(apart)
  {
    var chosen := Chosen(basis, apart, 1);
    forall c | 0 <= c < 2 ensures weights[c] == 0.0 {
      AgainstOne(inverse, 2, chosen, c, 2);
      DotSilent(chosen, Column(inverse, 2, c), 2);
    }
    DotSilent(weights, ColumnOf(tones, covering, 0), 2);
    LargestOfOne(apart);
  }

  lemma LargestOfOne(apart: seq<real>)
    requires |apart| == 1 && apart[0] >= 0.0
    ensures LargestOf(apart) == apart[0]
  {
    assert LargestOf(apart[..0]) == 0.0;
  }
}
