/** Four heights heard at once, weighed every way their weights allow, and the loudest of each
    way over all frames. */
module Weighings {
  import opened Vectors

  const STEPS_OF_A_WEIGHT: nat := 3
  const HALF_A_TABLE: nat := 9
  const WEIGHINGS: nat := 80
  const SUM_LANES: nat := 16

  /** How high the whole and each group is at one frame. */
  datatype Four = Four(whole: real, low: real, middle: real, high: real)

  /** What each of the four is weighed by. */
  datatype Weighing = Weighing(whole: real, low: real, middle: real, high: real)

  function Weight(digit: nat): (weight: real) {
    digit as real / (STEPS_OF_A_WEIGHT - 1) as real
  }

  function WeighingOf(index: nat): (weighing: Weighing) {
    var at := index + 1;
    Weighing(
      Weight(at / (HALF_A_TABLE * STEPS_OF_A_WEIGHT) % STEPS_OF_A_WEIGHT),
      Weight(at / HALF_A_TABLE % STEPS_OF_A_WEIGHT),
      Weight(at / STEPS_OF_A_WEIGHT % STEPS_OF_A_WEIGHT),
      Weight(at % STEPS_OF_A_WEIGHT))
  }

  type Times = (real, real) -> real

  function Product(): (times: Times)
    ensures forall weight: real, height: real {:trigger times(weight, height)} ::
      times(weight, height) == weight * height
  {
    (weight: real, height: real) => weight * height
  }

  function WeighedBy(times: Times, weighing: Weighing, four: Four): (weighed: real) {
    times(weighing.whole, four.whole) + times(weighing.low, four.low)
    + times(weighing.middle, four.middle) + times(weighing.high, four.high)
  }

  /** Each of the four times its weight, all together. */
  function Weighed(weighing: Weighing, four: Four): (weighed: real) {
    WeighedBy(Product(), weighing, four)
  }

  lemma ByThree(at: nat, above: nat, digit: nat)
    requires at == 3 * above + digit && digit < 3
    ensures at / 3 == above && at % 3 == digit
  {
  }

  lemma ByNine(at: nat, above: nat, rest: nat)
    requires at == 9 * above + rest && rest < 9
    ensures at / 9 == above && at % 9 == rest
  {
  }

  lemma ByTwentySeven(at: nat, above: nat, rest: nat)
    requires at == 27 * above + rest && rest < 27
    ensures at / 27 == above
  {
  }

  /** The digits a place in the table is made of are those its weights are. */
  lemma Digits(whole: nat, low: nat, middle: nat, high: nat, at: nat)
    requires whole < 3 && low < 3 && middle < 3 && high < 3
    requires at == 27 * whole + 9 * low + 3 * middle + high
    ensures at / 27 % 3 == whole && at / 9 % 3 == low && at / 3 % 3 == middle && at % 3 == high
    ensures at / 9 == 3 * whole + low && at % 9 == 3 * middle + high
    ensures at / 9 / 3 == whole && at % 9 / 3 == middle && at % 9 % 3 == high
  {
    ByTwentySeven(at, whole, 9 * low + 3 * middle + high);
    ByThree(whole, 0, whole);
    ByNine(at, 3 * whole + low, 3 * middle + high);
    ByThree(3 * whole + low, whole, low);
    ByThree(at, 9 * whole + 3 * low + middle, high);
    ByThree(9 * whole + 3 * low + middle, 3 * whole + low, middle);
    ByThree(3 * middle + high, middle, high);
  }

  lemma MadeOfDigits(at: nat) returns (whole: nat, low: nat, middle: nat, high: nat)
    requires at <= WEIGHINGS
    ensures whole < 3 && low < 3 && middle < 3 && high < 3
    ensures at == 27 * whole + 9 * low + 3 * middle + high
  {
    high := at % 3;
    var third := at / 3;
    middle := third % 3;
    var ninth := third / 3;
    low, whole := ninth % 3, ninth / 3;
  }

  lemma WeighsByDigits(index: nat, whole: nat, low: nat, middle: nat, high: nat)
    requires whole < 3 && low < 3 && middle < 3 && high < 3
    requires index + 1 == 27 * whole + 9 * low + 3 * middle + high
    ensures WeighingOf(index) == Weighing(Weight(whole), Weight(low), Weight(middle), Weight(high))
  {
    Digits(whole, low, middle, high, index + 1);
  }

  /** Where a weighing is in the table can be told from its weights. */
  function PlaceOf(weighing: Weighing): (place: real) {
    54.0 * weighing.whole + 18.0 * weighing.low + 6.0 * weighing.middle + 2.0 * weighing.high
  }

  lemma PlaceTold(index: nat)
    requires index < WEIGHINGS
    ensures PlaceOf(WeighingOf(index)) == (index + 1) as real
  {
    var whole, low, middle, high := MadeOfDigits(index + 1);
    WeighsByDigits(index, whole, low, middle, high);
    PlaceOfDigits(whole, low, middle, high, index + 1);
  }

  lemma PlaceOfDigits(whole: nat, low: nat, middle: nat, high: nat, at: nat)
    requires at == 27 * whole + 9 * low + 3 * middle + high
    ensures PlaceOf(Weighing(Weight(whole), Weight(low), Weight(middle), Weight(high))) == at as real
  {
  }

  /** No two of them weigh alike, and none weighs nothing. */
  lemma EachItsOwn(index: nat, other: nat)
    requires index < WEIGHINGS && other < WEIGHINGS
    ensures WeighingOf(index) == WeighingOf(other) ==> index == other
    ensures WeighingOf(index) != Weighing(0.0, 0.0, 0.0, 0.0)
  {
    PlaceTold(index);
    PlaceTold(other);
    assert PlaceOf(Weighing(0.0, 0.0, 0.0, 0.0)) == 0.0;
  }

  /** Whichever weights are asked for, but for none at all, one of them weighs so. */
  lemma EveryWeighing(whole: nat, low: nat, middle: nat, high: nat) returns (index: nat)
    requires whole < 3 && low < 3 && middle < 3 && high < 3 && whole + low + middle + high > 0
    ensures index < WEIGHINGS
    ensures WeighingOf(index) == Weighing(Weight(whole), Weight(low), Weight(middle), Weight(high))
  {
    index := 27 * whole + 9 * low + 3 * middle + high - 1;
    WeighsByDigits(index, whole, low, middle, high);
  }

  /** The part of a sum that one of two heights gives, as a row of a side of the table weighs
      it. */
  function Share(digit: nat, height: real): (share: real) {
    if digit == 0 then 0.0 else if digit == 1 then height / 2.0 else height
  }

  function SideSum(row: nat, first: real, second: real): (sum: real) {
    Share(row / STEPS_OF_A_WEIGHT, first) + Share(row % STEPS_OF_A_WEIGHT, second)
  }

  function EntrySum(row: nat, column: nat, four: Four): (sum: real) {
    SideSum(row, four.whole, four.low) + SideSum(column, four.middle, four.high)
  }

  function EntrySums(row: nat, column: nat, fours: seq<Four>): (sums: seq<real>)
    ensures |sums| == |fours|
    ensures forall k | 0 <= k < |fours| :: sums[k] == EntrySum(row, column, fours[k])
  {
    seq(|fours|, k requires 0 <= k < |fours| => EntrySum(row, column, fours[k]))
  }

  /** However two numbers are multiplied, a share is a height by its weight. */
  ghost predicate SharesAreWeights(times: Times) {
    forall digit: nat, height: real {:trigger times(Weight(digit), height)} | digit < STEPS_OF_A_WEIGHT ::
      Share(digit, height) == times(Weight(digit), height)
  }

  lemma ShareIsWeight(digit: nat, height: real)
    requires digit < STEPS_OF_A_WEIGHT
    ensures Share(digit, height) == Weight(digit) * height
  {
  }

  lemma ProductShares()
    ensures SharesAreWeights(Product())
  {
    forall digit: nat, height: real | digit < STEPS_OF_A_WEIGHT
      ensures Share(digit, height) == Product()(Weight(digit), height)
    {
      ShareIsWeight(digit, height);
    }
  }

  /** Where the table holds a weighing, its row and its column weigh the four as it does. */
  lemma EntryWeighs(index: nat, four: Four)
    requires index < WEIGHINGS
    ensures var at := index + 1;
      EntrySum(at / HALF_A_TABLE, at % HALF_A_TABLE, four) == Weighed(WeighingOf(index), four)
  {
    ProductShares();
    EntryWeighsBy(Product(), index, four);
  }

  lemma EntryWeighsBy(times: Times, index: nat, four: Four)
    requires index < WEIGHINGS && SharesAreWeights(times)
    ensures var at := index + 1;
      EntrySum(at / HALF_A_TABLE, at % HALF_A_TABLE, four) == WeighedBy(times, WeighingOf(index), four)
  {
    var whole, low, middle, high := MadeOfDigits(index + 1);
    WeighsByDigits(index, whole, low, middle, high);
    Digits(whole, low, middle, high, index + 1);
    SideWeighs(times, (index + 1) / HALF_A_TABLE, whole, low, four.whole, four.low);
    SideWeighs(times, (index + 1) % HALF_A_TABLE, middle, high, four.middle, four.high);
  }

  lemma SideWeighs(times: Times, row: nat, one: nat, other: nat, first: real, second: real)
    requires SharesAreWeights(times) && one < 3 && other < 3 && row == 3 * one + other
    ensures SideSum(row, first, second) == times(Weight(one), first) + times(Weight(other), second)
  {
    ByThree(row, one, other);
    assert Share(one, first) == times(Weight(one), first);
    assert Share(other, second) == times(Weight(other), second);
  }

  /** The loudest of some, or what was loudest before them. */
  ghost predicate IsLoudest(before: real, sums: seq<real>, loudest: real) {
    && before <= loudest && (forall k | 0 <= k < |sums| :: sums[k] <= loudest)
    && (loudest == before || loudest in sums)
  }

  lemma LoudestOn(before: real, sums: seq<real>, loudest: real, more: seq<real>, after: real)
    requires IsLoudest(before, sums, loudest) && IsLoudest(loudest, more, after)
    ensures IsLoudest(before, sums + more, after)
  {
  }

  function Added(front: seq<real>, back: seq<real>): (sums: seq<real>)
    requires |front| == |back|
    ensures |sums| == |front| && forall k | 0 <= k < |sums| :: sums[k] == front[k] + back[k]
  {
    seq(|front|, k requires 0 <= k < |front| => front[k] + back[k])
  }

  /** So many lanes each hold the loudest of every so manieth sum, and the rest is heard after
      them. */
  method LoudestSum(start: real, front: seq<real>, back: seq<real>) returns (loudest: real)
    requires |front| == |back|
    ensures IsLoudest(start, Added(front, back), loudest)
  {
    ghost var sums := Added(front, back);
    var lanes := seq(SUM_LANES, _ => start);
    var read := 0;
    while read + SUM_LANES <= |front|
      invariant 0 <= read <= |front|
      invariant LanesHold(lanes, start, sums, read)
    {
      var before := lanes;
      lanes := seq(SUM_LANES, l requires 0 <= l < SUM_LANES => Max(before[l], front[read + l] + back[read + l]));
      LanesGoOn(before, lanes, start, sums, read);
      read := read + SUM_LANES;
    }
    var tail := LoudestOf(start, Added(front[read..], back[read..]));
    assert Added(front[read..], back[read..]) == sums[read..];
    loudest := LoudestOf(tail, lanes);
    LanesAndRest(lanes, start, sums, read, tail, loudest);
  }

  method LoudestOf(start: real, sums: seq<real>) returns (loudest: real)
    ensures IsLoudest(start, sums, loudest)
  {
    loudest := start;
    for k := 0 to |sums|
      invariant IsLoudest(start, sums[..k], loudest)
    {
      assert sums[..k + 1] == sums[..k] + [sums[k]];
      loudest := Max(loudest, sums[k]);
    }
    assert sums[..|sums|] == sums;
  }

  /** Each lane is as loud as its own sums so far, and as loud as one of them or as the start. */
  ghost predicate LanesHold(lanes: seq<real>, start: real, sums: seq<real>, read: nat) {
    && |lanes| == SUM_LANES && read <= |sums|
    && (forall l | 0 <= l < SUM_LANES :: start <= lanes[l] && (lanes[l] == start || lanes[l] in sums))
    && forall k | 0 <= k < read :: UnderALane(lanes, sums[k])
  }

  ghost predicate UnderALane(lanes: seq<real>, sum: real) {
    exists l | 0 <= l < |lanes| :: sum <= lanes[l]
  }

  lemma LanesGoOn(before: seq<real>, lanes: seq<real>, start: real, sums: seq<real>, read: nat)
    requires LanesHold(before, start, sums, read) && read + SUM_LANES <= |sums| && |lanes| == SUM_LANES
    requires forall l | 0 <= l < SUM_LANES :: lanes[l] == Max(before[l], sums[read + l])
    ensures LanesHold(lanes, start, sums, read + SUM_LANES)
  {
    forall k | 0 <= k < read + SUM_LANES
      ensures UnderALane(lanes, sums[k])
    {
      if k < read {
        assert UnderALane(before, sums[k]);
        var l :| 0 <= l < SUM_LANES && sums[k] <= before[l];
        assert sums[k] <= lanes[l];
      } else {
        assert lanes[k - read] == Max(before[k - read], sums[read + (k - read)]);
        assert sums[k] <= lanes[k - read];
      }
    }
  }

  lemma LanesAndRest(lanes: seq<real>, start: real, sums: seq<real>, read: nat, tail: real, loudest: real)
    requires LanesHold(lanes, start, sums, read)
    requires IsLoudest(start, sums[read..], tail) && IsLoudest(tail, lanes, loudest)
    ensures IsLoudest(start, sums, loudest)
  {
    forall k | 0 <= k < |sums|
      ensures sums[k] <= loudest
    {
      if k >= read {
        assert sums[k] == sums[read..][k - read];
      } else {
        assert UnderALane(lanes, sums[k]);
      }
    }
  }

  type Table = seq<seq<real>>

  ghost predicate Sized(table: Table) {
    |table| == HALF_A_TABLE && forall row | 0 <= row < HALF_A_TABLE :: |table[row]| == HALF_A_TABLE
  }

  /** Every entry is the loudest its row and its column weigh any of the frames. */
  ghost predicate Holds(table: Table, fours: seq<Four>) {
    && Sized(table)
    && forall row, column | 0 <= row < HALF_A_TABLE && 0 <= column < HALF_A_TABLE ::
         IsLoudest(0.0, EntrySums(row, column, fours), table[row][column])
  }

  lemma InTheTable(at: nat)
    requires at <= WEIGHINGS
    ensures at / HALF_A_TABLE < HALF_A_TABLE && at % HALF_A_TABLE < HALF_A_TABLE
  {
  }

  /** Where a table holds a weighing: one past its index, row after row. */
  function EntryAt(table: Table, index: nat): (entry: real)
    requires Sized(table) && index < WEIGHINGS
  {
    InTheTable(index + 1);
    table[(index + 1) / HALF_A_TABLE][(index + 1) % HALF_A_TABLE]
  }

  /** The loudest each weighing is anywhere is what the table holds one past it. */
  lemma HoldsEachWeighing(table: Table, fours: seq<Four>, index: nat)
    requires Holds(table, fours) && index < WEIGHINGS
    ensures IsLoudest(0.0, WeighedEach(index, fours), EntryAt(table, index))
  {
    var at := index + 1;
    InTheTable(at);
    forall k | 0 <= k < |fours|
      ensures EntrySums(at / HALF_A_TABLE, at % HALF_A_TABLE, fours)[k] == WeighedEach(index, fours)[k]
    {
      EntryWeighs(index, fours[k]);
    }
    assert EntrySums(at / HALF_A_TABLE, at % HALF_A_TABLE, fours) == WeighedEach(index, fours);
  }

  function WeighedEach(index: nat, fours: seq<Four>): (weighed: seq<real>)
    ensures |weighed| == |fours| && forall k | 0 <= k < |fours| :: weighed[k] == Weighed(WeighingOf(index), fours[k])
  {
    seq(|fours|, k requires 0 <= k < |fours| => Weighed(WeighingOf(index), fours[k]))
  }

  /** A table of nothing heard. */
  function Nothing(): (table: Table)
    ensures Holds(table, [])
  {
    seq(HALF_A_TABLE, _ => seq(HALF_A_TABLE, _ => 0.0))
  }

  function Each(fours: seq<Four>, height: Four -> real): (heights: seq<real>)
    ensures |heights| == |fours| && forall k | 0 <= k < |fours| :: heights[k] == height(fours[k])
  {
    seq(|fours|, k requires 0 <= k < |fours| => height(fours[k]))
  }

  /** What one side of the table sums two heights to, row by row. */
  method SideOfTheTable(first: seq<real>, second: seq<real>) returns (side: seq<seq<real>>)
    requires |first| == |second|
    ensures |side| == HALF_A_TABLE
    ensures forall row | 0 <= row < HALF_A_TABLE :: SumsSide(row, side[row], first, second)
  {
    var firstHalf := seq(|first|, k requires 0 <= k < |first| => first[k] / 2.0);
    var secondHalf := seq(|second|, k requires 0 <= k < |second| => second[k] / 2.0);
    side := [];
    for row := 0 to HALF_A_TABLE
      invariant |side| == row
      invariant forall r | 0 <= r < row :: SumsSide(r, side[r], first, second)
    {
      var sum := if row / STEPS_OF_A_WEIGHT == 0 then seq(|first|, _ => 0.0)
                 else if row / STEPS_OF_A_WEIGHT == 1 then firstHalf else first;
      if row % STEPS_OF_A_WEIGHT != 0 {
        var more := if row % STEPS_OF_A_WEIGHT == 1 then secondHalf else second;
        sum := Added(sum, more);
      }
      assert SumsSide(row, sum, first, second);
      side := side + [sum];
    }
  }

  ghost predicate SumsSide(row: nat, sums: seq<real>, first: seq<real>, second: seq<real>)
    requires |first| == |second|
  {
    |sums| == |first| && forall k | 0 <= k < |first| :: sums[k] == SideSum(row, first[k], second[k])
  }

  /** Frames heard into a table of those heard before. */
  method HearInto(table: Table, more: seq<Four>, ghost fours: seq<Four>) returns (heard: Table)
    requires Holds(table, fours)
    ensures Holds(heard, fours + more)
  {
    var front := SideOfTheTable(Each(more, (four: Four) => four.whole), Each(more, (four: Four) => four.low));
    var back := SideOfTheTable(Each(more, (four: Four) => four.middle), Each(more, (four: Four) => four.high));
    heard := [];
    for row := 0 to HALF_A_TABLE
      invariant |heard| == row
      invariant forall r | 0 <= r < row :: RowHolds(heard[r], r, fours + more)
    {
      var held := HearIntoRow(table[row], front[row], back, row, more, fours);
      heard := heard + [held];
    }
    forall row, column | 0 <= row < HALF_A_TABLE && 0 <= column < HALF_A_TABLE
      ensures IsLoudest(0.0, EntrySums(row, column, fours + more), heard[row][column])
    {
      assert RowHolds(heard[row], row, fours + more);
    }
  }

  method HearIntoRow(
    table: seq<real>, front: seq<real>, back: seq<seq<real>>, ghost row: nat, ghost more: seq<Four>,
    ghost fours: seq<Four>) returns (held: seq<real>)
    requires RowHolds(table, row, fours) && |front| == |more| && |back| == HALF_A_TABLE
    requires forall k | 0 <= k < |more| :: front[k] == SideSum(row, more[k].whole, more[k].low)
    requires forall column | 0 <= column < HALF_A_TABLE ::
      SumsSide(column, back[column], Each(more, (four: Four) => four.middle), Each(more, (four: Four) => four.high))
    ensures RowHolds(held, row, fours + more)
  {
    held := [];
    for column := 0 to HALF_A_TABLE
      invariant |held| == column
      invariant forall c | 0 <= c < column :: IsLoudest(0.0, EntrySums(row, c, fours + more), held[c])
    {
      assert SumsSide(
        column, back[column], Each(more, (four: Four) => four.middle), Each(more, (four: Four) => four.high));
      var loudest := LoudestSum(table[column], front, back[column]);
      assert Added(front, back[column]) == EntrySums(row, column, more);
      LoudestOn(0.0, EntrySums(row, column, fours), table[column], EntrySums(row, column, more), loudest);
      assert EntrySums(row, column, fours + more) == EntrySums(row, column, fours) + EntrySums(row, column, more);
      held := held + [loudest];
    }
  }

  ghost predicate RowHolds(held: seq<real>, row: nat, fours: seq<Four>) {
    && |held| == HALF_A_TABLE
    && forall column | 0 <= column < HALF_A_TABLE :: IsLoudest(0.0, EntrySums(row, column, fours), held[column])
  }
}
