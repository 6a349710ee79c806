/** The transforms of a layer's granules by their folded forms: sums over half as many terms that
    the cosines' own symmetries make the same, and butterflies that a decoder's undo. */
module Granules {
  import opened Folding

  // ---------------------------------------------------------------- sums and turns

  /** A term of a sum at each place. */
  type Term = int -> real

  function Sum(term: Term, from: int, upto: int): (sum: real) {
    Summed(term, from, upto)
  }

  function Summed(term: Term, from: int, upto: int): (sum: real)
    decreases upto - from
  {
    if from >= upto then 0.0 else Summed(term, from, upto - 1) + term(upto - 1)
  }

  lemma {:induction false} SumAlike(one: Term, other: Term, from: int, upto: int)
    requires forall k {:trigger one(k)} {:trigger other(k)} | from <= k < upto :: one(k) == other(k)
    ensures Sum(one, from, upto) == Sum(other, from, upto)
    decreases upto - from
  {
    if from < upto {
      SumAlike(one, other, from, upto - 1);
      assert one(upto - 1) == other(upto - 1);
    }
  }

  lemma {:induction false} SumSplits(term: Term, from: int, middle: int, upto: int)
    requires from <= middle <= upto
    ensures Sum(term, from, upto) == Sum(term, from, middle) + Sum(term, middle, upto)
    decreases upto - middle
  {
    if middle < upto {
      SumSplits(term, from, middle, upto - 1);
    }
  }

  lemma {:induction false} FirstOfSum(term: Term, from: int, upto: int)
    requires from < upto
    ensures Sum(term, from, upto) == term(from) + Sum(term, from + 1, upto)
    decreases upto - from
  {
    SumSplits(term, from, from + 1, upto);
    assert Sum(term, from, from + 1) == Sum(term, from, from) + term(from);
  }

  /** A sum taken the other way round and from elsewhere. */
  lemma {:induction false} SumReversed(one: Term, other: Term, from: int, start: int, many: nat)
    requires forall j, k {:trigger one(j), other(k)} | from <= j < from + many && j - from + k - start == many - 1 ::
      one(j) == other(k)
    ensures Sum(one, from, from + many) == Sum(other, start, start + many)
    decreases many
  {
    if many > 0 {
      assert one(from + many - 1) == other(start);
      FirstOfSum(other, start, start + many);
      SumReversed(one, other, from, start + 1, many - 1);
    }
  }

  lemma {:induction false} SumShifted(one: Term, other: Term, from: int, start: int, many: nat)
    requires forall j, k {:trigger one(j), other(k)} | from <= j < from + many && j - from == k - start ::
      one(j) == other(k)
    ensures Sum(one, from, from + many) == Sum(other, start, start + many)
    decreases many
  {
    if many > 0 {
      SumShifted(one, other, from, start, many - 1);
      assert one(from + many - 1) == other(start + many - 1);
    }
  }

  lemma {:induction false} SumsAdd(one: Term, other: Term, both: Term, from: int, upto: int)
    requires forall k {:trigger both(k)} | from <= k < upto :: both(k) == one(k) + other(k)
    ensures Sum(both, from, upto) == Sum(one, from, upto) + Sum(other, from, upto)
    decreases upto - from
  {
    if from < upto {
      SumsAdd(one, other, both, from, upto - 1);
      assert both(upto - 1) == one(upto - 1) + other(upto - 1);
    }
  }

  /** How a cosine turns, in units of which so many are half a turn: alike both ways, and the other
      way up half a turn on. */
  ghost predicate Cosine(turn: Term, half: int) {
    forall fold: nat {:trigger Look(TheCosine, fold)} | Look(TheCosine, fold) ::
      forall m, n {:trigger turn(m), turn(n)} ::
        (m + n == 0 ==> turn(m) == turn(n)) && (m + n == half ==> turn(m) == -turn(n))
  }

  lemma Alike(turn: Term, half: int, one: int, other: int)
    requires Cosine(turn, half)
    ensures one + other == 0 ==> turn(one) == turn(other)
    ensures one + other == half ==> turn(one) == -turn(other)
  {
    assert Look(TheCosine, 0);
  }

  /** So many times as fast. */
  function Faster(turn: Term, times: int): (faster: Term) {
    (m: int) => turn(times * m)
  }

  /** A cosine an odd number of times as fast is still a cosine, over the same half turn. */
  lemma OddTurns(cosine: Term, half: int, line: nat)
    requires Cosine(cosine, half)
    ensures Cosine(Faster(cosine, 2 * line + 1), half)
  {
    var odd := 2 * line + 1;
    var faster := Faster(cosine, odd);
    forall m, n
      ensures m + n == 0 ==> faster(m) == faster(n)
      ensures m + n == half ==> faster(m) == -faster(n)
    {
      OddAngles(cosine, half, line, m, n, odd * m, odd * n);
    }
  }

  lemma OddAngles(cosine: Term, half: int, line: nat, m: int, n: int, one: int, other: int)
    requires Cosine(cosine, half) && one == (2 * line + 1) * m && other == (2 * line + 1) * n
    ensures m + n == 0 ==> cosine(one) == cosine(other)
    ensures m + n == half ==> cosine(one) == -cosine(other)
  {
    Together(2 * line + 1, m, n);
    Alike(cosine, half, one, other);
    if m + n == half {
      OddHalves(cosine, half, line, one, other);
    }
  }

  lemma Together(times: int, one: int, other: int)
    ensures times * one + times * other == times * (one + other)
    ensures one + other == 0 ==> times * one + times * other == 0
  {
  }

  lemma {:induction false} OddHalves(cosine: Term, half: int, line: nat, one: int, other: int)
    requires Cosine(cosine, half) && one + other == (2 * line + 1) * half
    ensures cosine(one) == -cosine(other)
    decreases line
  {
    if line > 0 {
      assert one - 2 * half + other == (2 * (line - 1) + 1) * half;
      OddHalves(cosine, half, line - 1, one - 2 * half, other);
      WholeTurn(cosine, half, one);
    } else {
      Alike(cosine, half, one, other);
    }
  }

  lemma WholeTurn(cosine: Term, half: int, angle: int)
    requires Cosine(cosine, half)
    ensures cosine(angle - 2 * half) == cosine(angle)
  {
    Alike(cosine, half, half - angle, angle);
    Alike(cosine, half, angle - half, half - angle);
    Alike(cosine, half, 2 * half - angle, angle - half);
    Alike(cosine, half, angle - 2 * half, 2 * half - angle);
  }

  // ---------------------------------------------------------------- matrixing

  /** What the standard sums for a subband: every row by its cosine, counted from the centre. */
  function Matrixed(turn: Term, rows: seq<real>): (sum: real) {
    Sum(RowTerm(turn, rows), 0, |rows|)
  }

  function RowTerm(turn: Term, rows: seq<real>): (term: Term) {
    (k: int) => if 0 <= k < |rows| then turn(k - |rows| / 4) * rows[k] else 0.0
  }

  /** The same of half as many folded rows. */
  function Turned(turn: Term, folded: seq<real>): (sum: real) {
    Sum(FoldTerm(turn, folded), 0, |folded|)
  }

  function FoldTerm(turn: Term, folded: seq<real>): (term: Term) {
    (k: int) => if 0 <= k < |folded| then turn(k) * folded[k] else 0.0
  }

  /** The first rows folded about the centre, those past half a turn from it taken away. */
  function FoldedOf(rows: seq<real>, upto: nat): (folded: seq<real>)
    requires |rows| % 4 == 0 && upto <= |rows|
    ensures |folded| == |rows| / 2
    decreases upto
  {
    var centre := |rows| / 4;
    if upto == 0 then seq(|rows| / 2, _ => 0.0)
    else
      var before, row := FoldedOf(rows, upto - 1), upto - 1;
      if row < centre then before[centre - row := before[centre - row] + rows[row]]
      else if row < 3 * centre then before[row - centre := before[row - centre] + rows[row]]
      else if row > 3 * centre then before[5 * centre - row := before[5 * centre - row] - rows[row]]
      else before
  }

  method FoldRows(rows: seq<real>) returns (folded: seq<real>)
    requires |rows| % 4 == 0
    ensures folded == FoldedOf(rows, |rows|)
  {
    var centre := |rows| / 4;
    folded := seq(|rows| / 2, _ => 0.0);
    for row := 0 to |rows|
      invariant folded == FoldedOf(rows, row)
    {
      if row < centre {
        folded := folded[centre - row := folded[centre - row] + rows[row]];
      } else if row < 3 * centre {
        folded := folded[row - centre := folded[row - centre] + rows[row]];
      } else if row > 3 * centre {
        folded := folded[5 * centre - row := folded[5 * centre - row] - rows[row]];
      }
    }
  }

  /** More in one place of the folded rows is as much more of the sum as that place turns. */
  lemma {:induction false} OnePlaceMore(turn: Term, folded: seq<real>, place: nat, more: real, upto: nat)
    requires place < |folded| && upto <= |folded|
    ensures Sum(FoldTerm(turn, folded[place := folded[place] + more]), 0, upto)
      == Sum(FoldTerm(turn, folded), 0, upto) + if place < upto then turn(place) * more else 0.0
    decreases upto
  {
    if upto > 0 {
      OnePlaceMore(turn, folded, place, more, upto - 1);
      if place == upto - 1 {
        Spread(turn(place), folded[place], more);
      }
    }
  }

  lemma Spread(turn: real, one: real, other: real)
    ensures turn * (one + other) == turn * one + turn * other
  {
  }

  /** How a row turns is how the place it is folded into turns, or the other way up. */
  lemma RowTurns(turn: Term, centre: int, row: int)
    requires Cosine(turn, 4 * centre) && 0 <= row < 4 * centre
    ensures turn(centre - row) == turn(row - centre)
    ensures row == 3 * centre ==> turn(row - centre) == 0.0
    ensures turn(5 * centre - row) == -turn(row - centre)
  {
    Alike(turn, 4 * centre, centre - row, row - centre);
    Alike(turn, 4 * centre, 5 * centre - row, row - centre);
  }

  lemma Negated(one: real, other: real, value: real)
    requires one == -other
    ensures one * -value == other * value
  {
  }

  /** However far the rows are folded, the folded sum is the standard's over those rows. */
  lemma {:induction false} FoldedSoFar(turn: Term, rows: seq<real>, upto: nat)
    requires |rows| % 4 == 0 && Cosine(turn, |rows|) && upto <= |rows|
    ensures Turned(turn, FoldedOf(rows, upto)) == Sum(RowTerm(turn, rows), 0, upto)
    decreases upto
  {
    if upto == 0 {
      NothingTurned(turn, |rows| / 2);
    } else {
      FoldedSoFar(turn, rows, upto - 1);
      OneRowTurned(turn, rows, upto - 1, FoldedOf(rows, upto - 1), FoldedOf(rows, upto), |rows| / 4);
    }
  }

  lemma OneRowTurned(turn: Term, rows: seq<real>, row: nat, before: seq<real>, after: seq<real>, centre: nat)
    requires |rows| == 4 * centre && row < |rows| && Cosine(turn, |rows|)
    requires before == FoldedOf(rows, row) && after == FoldedOf(rows, row + 1)
    ensures Turned(turn, after) == Turned(turn, before) + RowTerm(turn, rows)(row)
  {
    RowTurns(turn, centre, row);
    OneRowFolded(turn, rows, row, before, after, centre);
  }

  /** Which place a row is folded into, and whether the other way up; the one half a turn of half
      a turn from the centre is in none. */
  function PlaceOf(row: int, centre: int): (place: int) {
    if row < centre then centre - row else if row < 3 * centre then row - centre else 5 * centre - row
  }

  lemma FoldedAt(rows: seq<real>, row: nat, centre: nat)
    requires |rows| == 4 * centre && row < |rows|
    ensures var before, place := FoldedOf(rows, row), PlaceOf(row, centre);
      FoldedOf(rows, row + 1) == if row == 3 * centre then before
        else before[place := before[place] + if row < 3 * centre then rows[row] else -rows[row]]
  {
  }

  lemma OneRowFolded(turn: Term, rows: seq<real>, row: nat, before: seq<real>, after: seq<real>, centre: nat)
    requires |rows| == 4 * centre && row < |rows|
    requires before == FoldedOf(rows, row) && after == FoldedOf(rows, row + 1)
    requires turn(centre - row) == turn(row - centre)
    requires row == 3 * centre ==> turn(row - centre) == 0.0
    requires turn(5 * centre - row) == -turn(row - centre)
    ensures Turned(turn, after) == Turned(turn, before) + RowTerm(turn, rows)(row)
  {
    FoldedAt(rows, row, centre);
    var angle, product := turn(row - centre), RowTerm(turn, rows)(row);
    RowAsTerm(turn, rows, row, centre, angle);
    if row != 3 * centre {
      var place := PlaceOf(row, centre);
      OneValueFolded(turn, before, after, place, rows[row], row < 3 * centre, angle, product);
    }
  }

  /** So much of a height at an angle. */
  ghost predicate IsProduct(product: real, angle: real, value: real) {
    product == angle * value
  }

  lemma OneValueFolded(
    turn: Term, before: seq<real>, after: seq<real>, place: nat, value: real, upright: bool, angle: real,
    product: real)
    requires place < |before| && turn(place) == (if upright then angle else -angle) && IsProduct(product, angle, value)
    requires after == before[place := before[place] + if upright then value else -value]
    ensures Turned(turn, after) == Turned(turn, before) + product
  {
    OnePlaceMore(turn, before, place, if upright then value else -value, |before|);
    if !upright {
      Negated(turn(place), angle, value);
    }
  }

  lemma RowAsTerm(turn: Term, rows: seq<real>, row: nat, centre: nat, angle: real)
    requires |rows| == 4 * centre && row < |rows| && angle == turn(row - centre)
    ensures IsProduct(RowTerm(turn, rows)(row), angle, rows[row])
    ensures angle == 0.0 ==> RowTerm(turn, rows)(row) == 0.0
  {
  }

  lemma {:induction false} NothingTurned(turn: Term, many: nat)
    ensures Turned(turn, seq(many, _ => 0.0)) == 0.0
  {
    SumAlike(FoldTerm(turn, seq(many, _ => 0.0)), (k: int) => 0.0, 0, many);
    NothingSummed(many);
  }

  lemma {:induction false} NothingSummed(many: nat)
    ensures Sum((k: int) => 0.0, 0, many) == 0.0
    decreases many
  {
    if many > 0 {
      NothingSummed(many - 1);
    }
  }

  /** For every subband the folded rows, turned, are the standard's sum over all of them, for any
      number of subbands. */
  lemma FoldingMatrixes(cosine: Term, rows: seq<real>, subband: nat)
    requires |rows| % 4 == 0 && Cosine(cosine, |rows|)
    ensures var turn := Faster(cosine, 2 * subband + 1);
      Turned(turn, FoldedOf(rows, |rows|)) == Matrixed(turn, rows)
  {
    OddTurns(cosine, |rows|, subband);
    FoldedSoFar(Faster(cosine, 2 * subband + 1), rows, |rows|);
  }

  // ---------------------------------------------------------------- blocks

  /** What the standard sums for a line of a long block: every windowed value by its cosine. */
  function BlockSum(turn: Term, windowed: seq<real>): (sum: real) {
    Sum(BlockTerm(turn, windowed), 0, |windowed|)
  }

  function BlockTerm(turn: Term, windowed: seq<real>): (term: Term) {
    (k: int) => if 0 <= k < |windowed| then turn(2 * k + 1 + |windowed| / 2) * windowed[k] else 0.0
  }

  /** The same of half as many folded values. */
  function LineSum(turn: Term, folded: seq<real>): (sum: real) {
    Sum(LineTerm(turn, folded), 0, |folded|)
  }

  function LineTerm(turn: Term, folded: seq<real>): (term: Term) {
    (k: int) => if 0 <= k < |folded| then turn(2 * k + 1) * folded[k] else 0.0
  }

  /** The third quarter turned round and the fourth, both taken away; then the first, less the
      second turned round. */
  function FoldedBlock(windowed: seq<real>): (folded: seq<real>)
    requires |windowed| % 4 == 0
    ensures |folded| == |windowed| / 2
  {
    var quarter := |windowed| / 4;
    seq(2 * quarter, j requires 0 <= j < 2 * quarter =>
      if j < quarter then -windowed[3 * quarter - 1 - j] - windowed[3 * quarter + j]
      else windowed[j - quarter] - windowed[3 * quarter - 1 - j])
  }

  method FoldBlock(windowed: seq<real>) returns (folded: seq<real>)
    requires |windowed| % 4 == 0
    ensures folded == FoldedBlock(windowed)
  {
    var quarter := |windowed| / 4;
    var low: seq<real>, high: seq<real> := [], [];
    for j := 0 to quarter
      invariant |low| == j && forall i | 0 <= i < j :: low[i] == FoldedBlock(windowed)[i]
      invariant |high| == j && forall i | 0 <= i < j :: high[i] == FoldedBlock(windowed)[quarter + i]
    {
      low := low + [-windowed[3 * quarter - 1 - j] - windowed[3 * quarter + j]];
      high := high + [windowed[j] - windowed[2 * quarter - 1 - j]];
    }
    folded := low + high;
  }

  function Backwards(term: Term, from: int): (backwards: Term) {
    (j: int) => term(from - j)
  }

  function Onwards(term: Term, from: int): (onwards: Term) {
    (j: int) => term(from + j)
  }

  /** For any length of block the folded values, turned, are the standard's sum over all of it. */
  lemma FoldingTransforms(turn: Term, windowed: seq<real>)
    requires |windowed| % 4 == 0 && Cosine(turn, 2 * |windowed|)
    ensures LineSum(turn, FoldedBlock(windowed)) == BlockSum(turn, windowed)
  {
    var quarter, folded := |windowed| / 4, FoldedBlock(windowed);
    var block, line := BlockTerm(turn, windowed), LineTerm(turn, folded);
    LowHalf(turn, windowed, quarter, block, line);
    HighHalf(turn, windowed, quarter, block, line);
    SumSplits(line, 0, quarter, 2 * quarter);
    SumSplits(block, 0, quarter, 4 * quarter);
    SumSplits(block, quarter, 2 * quarter, 4 * quarter);
    SumSplits(block, 2 * quarter, 3 * quarter, 4 * quarter);
  }

  lemma LowHalf(turn: Term, windowed: seq<real>, quarter: nat, block: Term, line: Term)
    requires |windowed| == 4 * quarter && Cosine(turn, 8 * quarter)
    requires block == BlockTerm(turn, windowed) && line == LineTerm(turn, FoldedBlock(windowed))
    ensures Sum(line, 0, quarter)
      == Sum(block, 2 * quarter, 3 * quarter) + Sum(block, 3 * quarter, 4 * quarter)
  {
    LowTerms(turn, windowed, quarter, block, line);
    LowSum(block, line, quarter);
  }

  lemma LowTerms(turn: Term, windowed: seq<real>, quarter: nat, block: Term, line: Term)
    requires |windowed| == 4 * quarter && Cosine(turn, 8 * quarter)
    requires block == BlockTerm(turn, windowed) && line == LineTerm(turn, FoldedBlock(windowed))
    ensures forall j {:trigger line(j)} | 0 <= j < quarter ::
      line(j) == block(3 * quarter - 1 - j) + block(3 * quarter + j)
  {
    forall j {:trigger line(j)} | 0 <= j < quarter
      ensures line(j) == block(3 * quarter - 1 - j) + block(3 * quarter + j)
    {
      LowTerm(turn, windowed, quarter, j);
    }
  }

  lemma LowSum(block: Term, line: Term, quarter: nat)
    requires forall j {:trigger line(j)} | 0 <= j < quarter ::
      line(j) == block(3 * quarter - 1 - j) + block(3 * quarter + j)
    ensures Sum(line, 0, quarter)
      == Sum(block, 2 * quarter, 3 * quarter) + Sum(block, 3 * quarter, 4 * quarter)
  {
    var third, fourth := Backwards(block, 3 * quarter - 1), Onwards(block, 3 * quarter);
    SumsAdd(third, fourth, line, 0, quarter);
    SumBackwards(block, 3 * quarter - 1, 0, 2 * quarter, quarter);
    SumOnwards(block, 3 * quarter, 0, 3 * quarter, quarter);
  }

  lemma SumBackwards(term: Term, last: int, from: int, start: int, many: nat)
    requires last - from == start + many - 1
    ensures Sum(Backwards(term, last), from, from + many) == Sum(term, start, start + many)
  {
    SumReversed(Backwards(term, last), term, from, start, many);
  }

  lemma SumOnwards(term: Term, first: int, from: int, start: int, many: nat)
    requires first + from == start
    ensures Sum(Onwards(term, first), from, from + many) == Sum(term, start, start + many)
  {
    SumShifted(Onwards(term, first), term, from, start, many);
  }

  lemma LowTerm(turn: Term, windowed: seq<real>, quarter: nat, j: nat)
    requires |windowed| == 4 * quarter && Cosine(turn, 8 * quarter) && j < quarter
    ensures LineTerm(turn, FoldedBlock(windowed))(j)
      == BlockTerm(turn, windowed)(3 * quarter - 1 - j) + BlockTerm(turn, windowed)(3 * quarter + j)
  {
    var third, fourth := 3 * quarter - 1 - j, 3 * quarter + j;
    LowAngles(turn, quarter, j, 2 * third + 1 + 2 * quarter, 2 * fourth + 1 + 2 * quarter);
    TwoTaken(turn(2 * j + 1), turn(2 * third + 1 + 2 * quarter), turn(2 * fourth + 1 + 2 * quarter),
             windowed[third], windowed[fourth]);
  }

  lemma LowAngles(turn: Term, quarter: nat, j: nat, third: int, fourth: int)
    requires Cosine(turn, 8 * quarter) && third == 8 * quarter - 1 - 2 * j && fourth == 8 * quarter + 1 + 2 * j
    ensures turn(third) == -turn(2 * j + 1) && turn(fourth) == -turn(2 * j + 1)
  {
    Alike(turn, 8 * quarter, third, 2 * j + 1);
    Alike(turn, 8 * quarter, fourth, -(2 * j + 1));
    Alike(turn, 8 * quarter, -(2 * j + 1), 2 * j + 1);
  }

  lemma TwoTaken(angle: real, third: real, fourth: real, one: real, other: real)
    requires third == -angle && fourth == -angle
    ensures angle * (-one - other) == third * one + fourth * other
  {
  }

  lemma HighHalf(turn: Term, windowed: seq<real>, quarter: nat, block: Term, line: Term)
    requires |windowed| == 4 * quarter && Cosine(turn, 8 * quarter)
    requires block == BlockTerm(turn, windowed) && line == LineTerm(turn, FoldedBlock(windowed))
    ensures Sum(line, quarter, 2 * quarter)
      == Sum(block, 0, quarter) + Sum(block, quarter, 2 * quarter)
  {
    HighTerms(turn, windowed, quarter, block, line);
    HighSum(block, line, quarter);
  }

  lemma HighTerms(turn: Term, windowed: seq<real>, quarter: nat, block: Term, line: Term)
    requires |windowed| == 4 * quarter && Cosine(turn, 8 * quarter)
    requires block == BlockTerm(turn, windowed) && line == LineTerm(turn, FoldedBlock(windowed))
    ensures forall j {:trigger line(j)} | quarter <= j < 2 * quarter ::
      line(j) == block(j - quarter) + block(3 * quarter - 1 - j)
  {
    forall j {:trigger line(j)} | quarter <= j < 2 * quarter
      ensures line(j) == block(j - quarter) + block(3 * quarter - 1 - j)
    {
      HighTerm(turn, windowed, quarter, j);
    }
  }

  lemma HighSum(block: Term, line: Term, quarter: nat)
    requires forall j {:trigger line(j)} | quarter <= j < 2 * quarter ::
      line(j) == block(j - quarter) + block(3 * quarter - 1 - j)
    ensures Sum(line, quarter, 2 * quarter)
      == Sum(block, 0, quarter) + Sum(block, quarter, 2 * quarter)
  {
    var first, second := Onwards(block, 0 - (quarter as int)), Backwards(block, 3 * quarter - 1);
    SumsAdd(first, second, line, quarter, 2 * quarter);
    SumOnwards(block, 0 - (quarter as int), quarter, 0, quarter);
    SumBackwards(block, 3 * quarter - 1, quarter, quarter, quarter);
  }

  lemma HighTerm(turn: Term, windowed: seq<real>, quarter: nat, j: nat)
    requires |windowed| == 4 * quarter && Cosine(turn, 8 * quarter) && quarter <= j < 2 * quarter
    ensures LineTerm(turn, FoldedBlock(windowed))(j)
      == BlockTerm(turn, windowed)(j - quarter) + BlockTerm(turn, windowed)(3 * quarter - 1 - j)
  {
    var first, second := j - quarter, 3 * quarter - 1 - j;
    Alike(turn, 8 * quarter, 2 * second + 1 + 2 * quarter, 2 * j + 1);
    OneTaken(turn(2 * j + 1), turn(2 * second + 1 + 2 * quarter), windowed[first], windowed[second]);
  }

  lemma OneTaken(angle: real, second: real, one: real, other: real)
    requires second == -angle
    ensures angle * (one - other) == angle * one + second * other
  {
  }

  // ---------------------------------------------------------------- summing what is folded

  /** One line of a table of cosines, by the folded values it weighs. */
  function Column(cosines: seq<seq<real>>, folded: seq<real>, line: nat): (term: Term) {
    (k: int) => if 0 <= k < |folded| && k < |cosines| && line < |cosines[k]| then cosines[k][line] * folded[k] else 0.0
  }

  ghost predicate SumsUpto(cosines: seq<seq<real>>, folded: seq<real>, sums: seq<real>, upto: nat) {
    forall line {:trigger sums[line]} | 0 <= line < |sums| :: sums[line] == Sum(Column(cosines, folded, line), 0, upto)
  }

  /** Every line's sum, one folded value into all of them after another. */
  method TurnAll(cosines: seq<seq<real>>, folded: seq<real>, lines: nat) returns (sums: seq<real>)
    requires |cosines| == |folded| && forall k | 0 <= k < |cosines| :: |cosines[k]| == lines
    ensures |sums| == lines && SumsUpto(cosines, folded, sums, |folded|)
  {
    sums := seq(lines, _ => 0.0);
    for k := 0 to |folded|
      invariant |sums| == lines && SumsUpto(cosines, folded, sums, k)
    {
      var before := sums;
      sums := seq(lines, line requires 0 <= line < lines => before[line] + cosines[k][line] * folded[k]);
      OneValueOn(cosines, folded, before, sums, k);
    }
  }

  lemma OneValueOn(cosines: seq<seq<real>>, folded: seq<real>, before: seq<real>, sums: seq<real>, k: nat)
    requires |cosines| == |folded| && k < |folded| && |before| == |sums| == |cosines[k]|
    requires SumsUpto(cosines, folded, before, k)
    requires forall line | 0 <= line < |sums| :: sums[line] == before[line] + cosines[k][line] * folded[k]
    ensures SumsUpto(cosines, folded, sums, k + 1)
  {
    forall line {:trigger sums[line]} | 0 <= line < |sums|
      ensures sums[line] == Sum(Column(cosines, folded, line), 0, k + 1)
    {
      assert before[line] == Sum(Column(cosines, folded, line), 0, k);
      assert Column(cosines, folded, line)(k) == cosines[k][line] * folded[k];
    }
  }

  /** The cosines of the folded rows, for as many subbands as there are rows. */
  ghost predicate IsMatrixing(cosines: seq<seq<real>>, cosine: Term, rows: nat) {
    && |cosines| == rows
    && forall k, subband {:trigger cosines[k][subband]} | 0 <= k < rows && 0 <= subband < |cosines[k]| ::
         |cosines[k]| == rows && cosines[k][subband] == Faster(cosine, 2 * subband + 1)(k)
  }

  /** What a decoder's standard sums for every subband, from half as many rows. */
  method Matrix(rows: seq<real>, cosines: seq<seq<real>>, ghost cosine: Term) returns (sums: seq<real>)
    requires |rows| % 4 == 0 && Cosine(cosine, |rows|)
    requires IsMatrixing(cosines, cosine, |rows| / 2) && forall k | 0 <= k < |cosines| :: |cosines[k]| == |rows| / 2
    ensures |sums| == |rows| / 2
    ensures forall subband | 0 <= subband < |sums| ::
      sums[subband] == Matrixed(Faster(cosine, 2 * subband + 1), rows)
  {
    var folded := FoldRows(rows);
    sums := TurnAll(cosines, folded, |rows| / 2);
    forall subband | 0 <= subband < |sums|
      ensures sums[subband] == Matrixed(Faster(cosine, 2 * subband + 1), rows)
    {
      var turn := Faster(cosine, 2 * subband + 1);
      FoldingMatrixes(cosine, rows, subband);
      ColumnTurns(cosines, folded, subband, cosine);
    }
  }

  lemma ColumnTurns(cosines: seq<seq<real>>, folded: seq<real>, subband: nat, cosine: Term)
    requires IsMatrixing(cosines, cosine, |folded|) && subband < |folded|
    requires forall k | 0 <= k < |cosines| :: |cosines[k]| == |folded|
    ensures Sum(Column(cosines, folded, subband), 0, |folded|) == Turned(Faster(cosine, 2 * subband + 1), folded)
  {
    var column, turn := Column(cosines, folded, subband), Faster(cosine, 2 * subband + 1);
    forall k | 0 <= k < |folded| ensures column(k) == FoldTerm(turn, folded)(k) {
      assert cosines[k][subband] == turn(k);
    }
    SumAlike(column, FoldTerm(turn, folded), 0, |folded|);
  }

  /** A block's values windowed, every other one of an odd subband the other way up. */
  function Windowed(values: seq<real>, window: seq<real>, odd: bool): (windowed: seq<real>)
    requires |values| == |window|
    ensures |windowed| == |values|
  {
    seq(|values|, nth requires 0 <= nth < |values| =>
      if odd && nth % 2 == 1 then -(values[nth] * window[nth]) else values[nth] * window[nth])
  }

  ghost predicate IsTurning(turning: seq<seq<real>>, cosine: Term, lines: nat) {
    && |turning| == lines
    && forall nth, line {:trigger turning[nth][line]} | 0 <= nth < lines && 0 <= line < |turning[nth]| ::
         |turning[nth]| == lines && turning[nth][line] == Faster(cosine, 2 * line + 1)(2 * nth + 1)
  }

  /** What the standard sums for every line of a long block, from half as many values. */
  method Transform(values: seq<real>, window: seq<real>, odd: bool, turning: seq<seq<real>>, ghost cosine: Term)
      returns (lines: seq<real>)
    requires |values| == |window| && |values| % 4 == 0 && Cosine(cosine, 2 * |values|)
    requires IsTurning(turning, cosine, |values| / 2) && forall k | 0 <= k < |turning| :: |turning[k]| == |values| / 2
    ensures |lines| == |values| / 2
    ensures forall line | 0 <= line < |lines| ::
      lines[line] == BlockSum(Faster(cosine, 2 * line + 1), Windowed(values, window, odd))
  {
    var windowed := Windowed(values, window, odd);
    var folded := FoldBlock(windowed);
    lines := TurnAll(turning, folded, |values| / 2);
    forall line | 0 <= line < |lines|
      ensures lines[line] == BlockSum(Faster(cosine, 2 * line + 1), windowed)
    {
      OddTurns(cosine, 2 * |values|, line);
      FoldingTransforms(Faster(cosine, 2 * line + 1), windowed);
      LineTurns(turning, folded, line, cosine);
    }
  }

  lemma LineTurns(turning: seq<seq<real>>, folded: seq<real>, line: nat, cosine: Term)
    requires IsTurning(turning, cosine, |folded|) && line < |folded|
    requires forall k | 0 <= k < |turning| :: |turning[k]| == |folded|
    ensures Sum(Column(turning, folded, line), 0, |folded|) == LineSum(Faster(cosine, 2 * line + 1), folded)
  {
    var column, turn := Column(turning, folded, line), Faster(cosine, 2 * line + 1);
    forall k | 0 <= k < |folded| ensures column(k) == LineTerm(turn, folded)(k) {
      assert turning[k][line] == turn(2 * k + 1);
    }
    SumAlike(column, LineTerm(turn, folded), 0, |folded|);
  }

  // ---------------------------------------------------------------- butterflies

  type Lines = seq<seq<real>>

  /** How each butterfly turns a line and the one it mirrors in the next subband. */
  datatype Butterfly = Butterfly(sine: real, cosine: real)

  ghost predicate Even(lines: Lines, width: nat) {
    forall s | 0 <= s < |lines| :: |lines[s]| == width
  }

  /** A line above a border that is turned with its mirror below it. */
  predicate TurnsBelow(first: nat, past: nat, many: nat, subband: nat, line: nat) {
    first < subband < past && line < many
  }

  predicate TurnsAbove(first: nat, past: nat, many: nat, width: nat, subband: nat, line: nat) {
    first <= subband && subband + 1 < past && line < width && width - 1 - line < many
  }

  function LineTurned(
    lines: Lines, butterflies: seq<Butterfly>, first: nat, past: nat, width: nat, subband: nat,
    line: nat): (turned: real)
    requires past <= |lines| && subband < |lines| && line < width && Even(lines, width)
    requires 2 * |butterflies| <= width
  {
    var here := lines[subband][line];
    if TurnsBelow(first, past, |butterflies|, subband, line) then
      here * butterflies[line].cosine - lines[subband - 1][width - 1 - line] * butterflies[line].sine
    else if TurnsAbove(first, past, |butterflies|, width, subband, line) then
      here * butterflies[width - 1 - line].cosine
      + lines[subband + 1][width - 1 - line] * butterflies[width - 1 - line].sine
    else here
  }

  /** Every pair across a border turned. */
  function AllTurned(lines: Lines, butterflies: seq<Butterfly>, first: nat, past: nat, width: nat): (turned: Lines)
    requires past <= |lines| && Even(lines, width) && 2 * |butterflies| <= width
    ensures |turned| == |lines| && Even(turned, width)
    ensures forall s, l {:trigger turned[s][l]} | 0 <= s < |lines| && 0 <= l < width ::
      turned[s][l] == LineTurned(lines, butterflies, first, past, width, s, l)
  {
    seq(|lines|, s requires 0 <= s < |lines| =>
      seq(width, l requires 0 <= l < width => LineTurned(lines, butterflies, first, past, width, s, l)))
  }

  /** The butterflies of a decoder, which turn the other way. */
  function Backward(butterflies: seq<Butterfly>): (backward: seq<Butterfly>)
    ensures |backward| == |butterflies|
    ensures forall k {:trigger backward[k]} | 0 <= k < |butterflies| ::
      backward[k] == Butterfly(-butterflies[k].sine, butterflies[k].cosine)
  {
    seq(|butterflies|, k requires 0 <= k < |butterflies| => Butterfly(-butterflies[k].sine, butterflies[k].cosine))
  }

  ghost predicate Whole(butterfly: Butterfly) {
    butterfly.sine * butterfly.sine + butterfly.cosine * butterfly.cosine == 1.0
  }

  lemma TurnedThereAndBack(
    butterfly: Butterfly, back: Butterfly, below: real, above: real, belowTurned: real, aboveTurned: real)
    requires Whole(butterfly) && back == Butterfly(-butterfly.sine, butterfly.cosine)
    requires belowTurned == below * butterfly.cosine + above * butterfly.sine
    requires aboveTurned == above * butterfly.cosine - below * butterfly.sine
    ensures belowTurned * back.cosine + aboveTurned * back.sine == below
    ensures aboveTurned * back.cosine - belowTurned * back.sine == above
  {
    Undone(butterfly.sine, butterfly.cosine, below, above);
  }

  lemma Undone(sine: real, cosine: real, below: real, above: real)
    requires sine * sine + cosine * cosine == 1.0
    ensures (below * cosine + above * sine) * cosine + (above * cosine - below * sine) * -sine == below
    ensures (above * cosine - below * sine) * cosine - (below * cosine + above * sine) * -sine == above
  {
    assert (below * cosine + above * sine) * cosine + (above * cosine - below * sine) * -sine
      == below * (sine * sine + cosine * cosine);
    assert (above * cosine - below * sine) * cosine - (below * cosine + above * sine) * -sine
      == above * (sine * sine + cosine * cosine);
  }

  /** A decoder's butterflies turn back every line these turned, whatever subbands they went over:
      no line is in two of them. */
  lemma DecoderUndoes(lines: Lines, butterflies: seq<Butterfly>, first: nat, past: nat, width: nat)
    requires past <= |lines| && Even(lines, width) && 2 * |butterflies| <= width
    requires forall k | 0 <= k < |butterflies| :: Whole(butterflies[k])
    ensures AllTurned(AllTurned(lines, butterflies, first, past, width), Backward(butterflies), first, past, width)
      == lines
  {
    var turned := AllTurned(lines, butterflies, first, past, width);
    var back := AllTurned(turned, Backward(butterflies), first, past, width);
    forall s | 0 <= s < |lines| ensures back[s] == lines[s] {
      forall l | 0 <= l < width ensures back[s][l] == lines[s][l] {
        LineUndone(lines, butterflies, first, past, width, s, l, turned);
      }
    }
  }

  lemma LineUndone(
    lines: Lines, butterflies: seq<Butterfly>, first: nat, past: nat, width: nat, s: nat, l: nat, turned: Lines)
    requires past <= |lines| && Even(lines, width) && 2 * |butterflies| <= width && s < |lines| && l < width
    requires forall k | 0 <= k < |butterflies| :: Whole(butterflies[k])
    requires turned == AllTurned(lines, butterflies, first, past, width)
    ensures LineTurned(turned, Backward(butterflies), first, past, width, s, l) == lines[s][l]
  {
    var many := |butterflies|;
    if TurnsBelow(first, past, many, s, l) {
      PairUndone(lines, butterflies, first, past, width, s, l, turned);
    } else if TurnsAbove(first, past, many, width, s, l) {
      PairUndone(lines, butterflies, first, past, width, s + 1, width - 1 - l, turned);
    } else {
      assert turned[s][l] == lines[s][l];
    }
  }

  lemma PairUndone(
    lines: Lines, butterflies: seq<Butterfly>, first: nat, past: nat, width: nat, s: nat, l: nat, turned: Lines)
    requires past <= |lines| && Even(lines, width) && 2 * |butterflies| <= width
    requires forall k | 0 <= k < |butterflies| :: Whole(butterflies[k])
    requires turned == AllTurned(lines, butterflies, first, past, width)
    requires TurnsBelow(first, past, |butterflies|, s, l)
    ensures LineTurned(turned, Backward(butterflies), first, past, width, s, l) == lines[s][l]
    ensures LineTurned(turned, Backward(butterflies), first, past, width, s - 1, width - 1 - l)
      == lines[s - 1][width - 1 - l]
  {
    var mirror := width - 1 - l;
    assert TurnsAbove(first, past, |butterflies|, width, s - 1, mirror) && width - 1 - mirror == l;
    assert !TurnsBelow(first, past, |butterflies|, s - 1, mirror);
    TurnedThereAndBack(
      butterflies[l], Backward(butterflies)[l], lines[s - 1][mirror], lines[s][l], turned[s - 1][mirror], turned[s][l]);
  }

  function Contents(lines: array2<real>): (contents: Lines)
    reads lines
    ensures |contents| == lines.Length0 && Even(contents, lines.Length1)
    ensures forall s, l {:trigger contents[s][l]} | 0 <= s < lines.Length0 && 0 <= l < lines.Length1 ::
      contents[s][l] == lines[s, l]
  {
    seq(lines.Length0, s requires 0 <= s < lines.Length0 reads lines =>
      seq(lines.Length1, l requires 0 <= l < lines.Length1 reads lines => lines[s, l]))
  }

  /** Whether a line is in one of the butterflies already turned, those of the borders before one
      and the first of that border's. */
  predicate IsTurned(first: nat, upto: nat, nth: nat, many: nat, width: nat, s: nat, l: nat) {
    || (first < s < upto && l < many) || (s == upto && first < s && l < nth)
    || (first < s + 1 < upto && l < width && width - 1 - l < many)
    || (first < s + 1 == upto && l < width && width - 1 - l < nth)
  }

  /** The lines of the butterflies turned so far are as they end up, and the others as they were. */
  ghost predicate Partly(
    now: Lines, was: Lines, turned: Lines, first: nat, upto: nat, nth: nat, many: nat, width: nat)
    requires |now| == |was| == |turned| && Even(now, width) && Even(was, width) && Even(turned, width)
  {
    forall i, l {:trigger now[i][l]} | 0 <= i < |now| && 0 <= l < width ::
      now[i][l] == if IsTurned(first, upto, nth, many, width, i, l) then turned[i][l] else was[i][l]
  }

  /** Two lines of two subbands set. */
  ghost predicate SetTwo(
    before: Lines, after: Lines, s: nat, mirror: nat, nth: nat, below: real, above: real, width: nat)
    requires |before| == |after| && Even(before, width) && Even(after, width)
  {
    forall i, l {:trigger after[i][l]} | 0 <= i < |after| && 0 <= l < width ::
      after[i][l] == if i == s - 1 && l == mirror then below else if i == s && l == nth then above else before[i][l]
  }

  lemma OnePairOn(
    before: Lines, after: Lines, was: Lines, butterflies: seq<Butterfly>, first: nat, past: nat, width: nat, s: nat,
    nth: nat, turned: Lines, below: real, above: real)
    requires past <= |was| == |before| == |after| && Even(was, width) && Even(before, width) && Even(after, width)
    requires 2 * |butterflies| <= width && first < s < past && nth < |butterflies|
    requires turned == AllTurned(was, butterflies, first, past, width)
    requires Partly(before, was, turned, first, s, nth, |butterflies|, width)
    requires below == turned[s - 1][width - 1 - nth] && above == turned[s][nth]
    requires SetTwo(before, after, s, width - 1 - nth, nth, below, above, width)
    ensures Partly(after, was, turned, first, s, nth + 1, |butterflies|, width)
  {
  }

  lemma AllPartly(now: Lines, was: Lines, butterflies: seq<Butterfly>, first: nat, past: nat, width: nat, turned: Lines)
    requires past <= |was| == |now| && Even(was, width) && Even(now, width) && 2 * |butterflies| <= width
    requires turned == AllTurned(was, butterflies, first, past, width)
    requires Partly(now, was, turned, first, if first + 1 < past then past else first + 1, 0, |butterflies|, width)
    ensures now == turned
  {
    forall i | 0 <= i < |now| ensures now[i] == turned[i] {
      forall l | 0 <= l < width ensures now[i][l] == turned[i][l] {
      }
    }
  }

  /** Every pair across a border turned where it is, border after border. */
  method Unalias(lines: array2<real>, butterflies: seq<Butterfly>, first: nat, past: nat)
    requires past <= lines.Length0 && 2 * |butterflies| <= lines.Length1
    modifies lines
    ensures Contents(lines) == AllTurned(old(Contents(lines)), butterflies, first, past, lines.Length1)
  {
    ghost var was := Contents(lines);
    ghost var turned := AllTurned(was, butterflies, first, past, lines.Length1);
    var many := |butterflies|;
    var s := first + 1;
    while s < past
      invariant first < s && (s <= past || s == first + 1)
      invariant Partly(Contents(lines), was, turned, first, s, 0, many, lines.Length1)
    {
      for nth := 0 to many
        invariant Partly(Contents(lines), was, turned, first, s, nth, many, lines.Length1)
      {
        TurnPair(lines, butterflies[nth], s, nth, many, was, turned, butterflies, first, past);
      }
      s := s + 1;
    }
    AllPartly(Contents(lines), was, butterflies, first, past, lines.Length1, turned);
  }

  /** One pair turned. */
  method TurnPair(
    lines: array2<real>, butterfly: Butterfly, s: nat, nth: nat, ghost many: nat, ghost was: Lines, ghost turned: Lines,
    ghost butterflies: seq<Butterfly>, ghost first: nat, ghost past: nat)
    requires past <= lines.Length0 == |was| && many == |butterflies| && 2 * many <= lines.Length1
    requires Even(was, lines.Length1) && turned == AllTurned(was, butterflies, first, past, lines.Length1)
    requires first < s < past && nth < many && butterfly == butterflies[nth]
    requires Partly(Contents(lines), was, turned, first, s, nth, many, lines.Length1)
    modifies lines
    ensures Partly(Contents(lines), was, turned, first, s, nth + 1, many, lines.Length1)
  {
    ghost var before := Contents(lines);
    var mirror := lines.Length1 - 1 - nth;
    var below, above := lines[s - 1, mirror], lines[s, nth];
    var lower := below * butterfly.cosine + above * butterfly.sine;
    var upper := above * butterfly.cosine - below * butterfly.sine;
    SetPair(lines, s, mirror, nth, lower, upper);
    PairIsTurned(before, was, turned, butterflies, first, past, lines.Length1, s, nth, below, above, lower, upper);
    OnePairOn(
      before, Contents(lines), was, butterflies, first, past, lines.Length1, s, nth, turned, lower, upper);
  }

  lemma PairIsTurned(
    before: Lines, was: Lines, turned: Lines, butterflies: seq<Butterfly>, first: nat, past: nat, width: nat, s: nat,
    nth: nat, below: real, above: real, lower: real, upper: real)
    requires past <= |was| == |before| && Even(was, width) && Even(before, width) && 2 * |butterflies| <= width
    requires turned == AllTurned(was, butterflies, first, past, width) && first < s < past && nth < |butterflies|
    requires Partly(before, was, turned, first, s, nth, |butterflies|, width)
    requires below == before[s - 1][width - 1 - nth] && above == before[s][nth]
    requires lower == below * butterflies[nth].cosine + above * butterflies[nth].sine
    requires upper == above * butterflies[nth].cosine - below * butterflies[nth].sine
    ensures lower == turned[s - 1][width - 1 - nth] && upper == turned[s][nth]
  {
    assert below == was[s - 1][width - 1 - nth] && above == was[s][nth];
    PairTurned(was, butterflies, first, past, width, s, nth);
  }

  /** Two lines set, and the others left as they were. */
  method SetPair(lines: array2<real>, s: nat, mirror: nat, nth: nat, below: real, above: real)
    requires 0 < s < lines.Length0 && mirror < lines.Length1 && nth < lines.Length1
    modifies lines
    ensures SetTwo(old(Contents(lines)), Contents(lines), s, mirror, nth, below, above, lines.Length1)
  {
    lines[s - 1, mirror] := below;
    lines[s, nth] := above;
  }

  lemma PairTurned(lines: Lines, butterflies: seq<Butterfly>, first: nat, past: nat, width: nat, s: nat, l: nat)
    requires past <= |lines| && Even(lines, width) && 2 * |butterflies| <= width
    requires TurnsBelow(first, past, |butterflies|, s, l)
    ensures var turned, mirror := AllTurned(lines, butterflies, first, past, width), width - 1 - l;
      && turned[s - 1][mirror]
         == lines[s - 1][mirror] * butterflies[l].cosine + lines[s][l] * butterflies[l].sine
      && turned[s][l] == lines[s][l] * butterflies[l].cosine - lines[s - 1][mirror] * butterflies[l].sine
  {
    var mirror := width - 1 - l;
    assert TurnsAbove(first, past, |butterflies|, width, s - 1, mirror) && width - 1 - mirror == l;
    assert !TurnsBelow(first, past, |butterflies|, s - 1, mirror);
  }

  // ---------------------------------------------------------------- lines wanted

  function HalfUp(n: nat): (half: nat) {
    (n + 1) / 2
  }

  /** The bins of a half-length transform that are worked out where only some lines are wanted. */
  function BinsReaching(hop: nat, start: nat, end: nat): (bins: (nat, nat)) {
    if start >= end then (0, 0)
    else
      var left := if end <= hop then hop - end else 0;
      var most := if start + 1 <= hop then hop - (start + 1) else 0;
      var first := if HalfUp(start) < HalfUp(left) then HalfUp(start) else HalfUp(left);
      var past := if HalfUp(end) > most / 2 + 1 then HalfUp(end) else most / 2 + 1;
      (if first < hop / 2 then first else hop / 2, if past < hop / 2 then past else hop / 2)
  }

  /** Every line wanted is one of the two that some bin worked out gives, for any even hop. */
  lemma EveryLineReached(hop: nat, start: nat, end: nat, line: nat) returns (bin: nat)
    requires hop % 2 == 0 && start <= line < end && line < hop
    ensures BinsReaching(hop, start, end).0 <= bin < BinsReaching(hop, start, end).1
    ensures line == 2 * bin || line == hop - 1 - 2 * bin
  {
    bin := if line % 2 == 0 then line / 2 else (hop - 1 - line) / 2;
  }
}
