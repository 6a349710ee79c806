/** Least squares: elimination with row exchanges in place, back substitution, and the
    normal equations of a window of samples. */
module Fit {
  import opened Vectors
  import opened Matrices
  import opened Wrappers

  predicate Square(m: Matrix, width: nat) {
    |m| == width && forall i | 0 <= i < width :: |m[i]| == width
  }

  /** `x` answers the first `rows` equations of the system. */
  ghost predicate Answers(m: Matrix, b: seq<real>, x: seq<real>, width: nat)
    requires Square(m, width) && |b| == width
  {
    |x| == width && forall i | 0 <= i < width :: Answered(m, b, x, width, i)
  }

  ghost predicate Answered(m: Matrix, b: seq<real>, x: seq<real>, width: nat, i: nat)
    requires Square(m, width) && |b| == width && |x| == width && i < width
  {
    Dot(m[i], x, width) == b[i]
  }

  /** Two systems with the same answers, whatever is on their right. */
  ghost predicate Alike(m: Matrix, b: seq<real>, n: Matrix, c: seq<real>, width: nat)
    requires Square(m, width) && Square(n, width) && |b| == |c| == width
  {
    forall x | |x| == width :: Answers(m, b, x, width) <==> Answers(n, c, x, width)
  }

  // ---------------------------------------------------------------- row operations

  /** Row `row` less `factor` times row `lead`. */
  ghost predicate Lessened(
    m: Matrix, b: seq<real>, row: nat, lead: nat, factor: real, n: Matrix, c: seq<real>, width: nat)
    requires Square(m, width) && Square(n, width) && |b| == |c| == width && row < width && lead < width
  {
    && n == m[row := n[row]] && c == b[row := Added(b[row], -factor, b[lead])]
    && forall j | 0 <= j < width :: n[row][j] == Added(m[row][j], -factor, m[lead][j])
  }

  lemma LessenedRow(
    m: Matrix, b: seq<real>, row: nat, lead: nat, factor: real, n: Matrix, c: seq<real>, width: nat, x: seq<real>)
    requires Square(m, width) && Square(n, width) && |b| == |c| == |x| == width && row < width && lead < width
    requires row != lead && Lessened(m, b, row, lead, factor, n, c, width)
    requires Answered(m, b, x, width, lead)
    ensures Answered(m, b, x, width, row) <==> Answered(n, c, x, width, row)
  {
    DotCombined(m[row], -factor, m[lead], n[row], x, width);
  }

  lemma LessenedAlike(m: Matrix, b: seq<real>, row: nat, lead: nat, factor: real, n: Matrix, c: seq<real>, width: nat)
    requires Square(m, width) && Square(n, width) && |b| == |c| == width && row < width && lead < width
    requires row != lead && Lessened(m, b, row, lead, factor, n, c, width)
    ensures Alike(m, b, n, c, width)
  {
    forall x | |x| == width
      ensures Answers(m, b, x, width) <==> Answers(n, c, x, width)
    {
      forall i | 0 <= i < width && i != row
        ensures Answered(m, b, x, width, i) <==> Answered(n, c, x, width, i)
      {
      }
      if Answered(m, b, x, width, lead) {
        LessenedRow(m, b, row, lead, factor, n, c, width, x);
      }
    }
  }

  ghost predicate Exchanged(m: Matrix, b: seq<real>, one: nat, other: nat, n: Matrix, c: seq<real>, width: nat)
    requires Square(m, width) && Square(n, width) && |b| == |c| == width && one < width && other < width
  {
    n == m[one := m[other]][other := m[one]] && c == b[one := b[other]][other := b[one]]
  }

  lemma ExchangedAlike(m: Matrix, b: seq<real>, one: nat, other: nat, n: Matrix, c: seq<real>, width: nat)
    requires Square(m, width) && Square(n, width) && |b| == |c| == width && one < width && other < width
    requires Exchanged(m, b, one, other, n, c, width)
    ensures Alike(m, b, n, c, width)
  {
    forall x | |x| == width
      ensures Answers(m, b, x, width) <==> Answers(n, c, x, width)
    {
      forall i | 0 <= i < width
        ensures Answered(n, c, x, width, i)
           <==> Answered(m, b, x, width, if i == one then other else if i == other then one else i)
      {
      }
      if Answers(n, c, x, width) {
        forall i | 0 <= i < width ensures Answered(m, b, x, width, i) {
          var there := if i == one then other else if i == other then one else i;
          assert Answered(n, c, x, width, there);
        }
      }
    }
  }

  lemma AlikeInTurn(m: Matrix, b: seq<real>, n: Matrix, c: seq<real>, o: Matrix, d: seq<real>, width: nat)
    requires Square(m, width) && Square(n, width) && Square(o, width) && |b| == |c| == |d| == width
    requires Alike(m, b, n, c, width) && Alike(n, c, o, d, width)
    ensures Alike(m, b, o, d, width)
  {
  }

  // ---------------------------------------------------------------- triangular systems

  /** The first `upto` columns hold nothing under the diagonal, and something on it. */
  ghost predicate Cleared(m: Matrix, width: nat, upto: nat)
    requires Square(m, width) && upto <= width
  {
    && (forall i, j | 0 <= j < upto && j < i < width :: m[i][j] == 0.0)
    && (forall j | 0 <= j < upto :: m[j][j] != 0.0)
  }

  /** What a row of a triangular system comes to: its diagonal term and those after it. */
  lemma RowOf(m: Matrix, width: nat, upto: nat, i: nat, x: seq<real>)
    requires Square(m, width) && i <= upto <= width && i < width && |x| == width
    requires Cleared(m, width, upto)
    ensures Dot(m[i], x, width) == m[i][i] * x[i] + DotFrom(m[i], x, i + 1, width)
  {
    DotParted(m[i], x, i + 1, width);
    DotSilent(m[i], x, i);
  }

  /** The unknown of one row, once those after it are known. */
  lemma RowSettled(m: Matrix, b: seq<real>, width: nat, row: nat, x: seq<real>, y: seq<real>)
    requires Square(m, width) && |b| == |x| == |y| == width && row < width && Cleared(m, width, row + 1)
    requires forall i | row < i < width :: Answered(m, b, x, width, i)
    requires forall j | row < j < width :: y[j] == x[j]
    requires m[row][row] * y[row] == b[row] - DotFrom(m[row], x, row + 1, width)
    ensures forall i | row <= i < width :: Answered(m, b, y, width, i)
  {
    ItsOwnRow(m, b, width, row, x, y);
    forall i | row <= i < width ensures Answered(m, b, y, width, i) {
      if i > row {
        assert Answered(m, b, x, width, i);
        Unmoved(m, width, row + 1, i, x, y);
      }
    }
  }

  lemma ItsOwnRow(m: Matrix, b: seq<real>, width: nat, row: nat, x: seq<real>, y: seq<real>)
    requires Square(m, width) && |b| == |x| == |y| == width && row < width && Cleared(m, width, row + 1)
    requires forall j | row < j < width :: y[j] == x[j]
    requires m[row][row] * y[row] == b[row] - DotFrom(m[row], x, row + 1, width)
    ensures Answered(m, b, y, width, row)
  {
    RowOf(m, width, row + 1, row, y);
    DotFromAgrees(m[row], x, y, row + 1, width);
  }

  lemma Divided(lead: real, rest: real, value: real)
    requires lead != 0.0 && value == rest / lead
    ensures lead * value == rest
  {
  }

  /** Answers of the rows from `from` on settle every row before it, one unknown at a time. */
  lemma {:induction false} FilledBack(m: Matrix, b: seq<real>, width: nat, from: nat, x: seq<real>)
    returns (filled: seq<real>)
    requires Square(m, width) && |b| == |x| == width && from <= width
    requires Cleared(m, width, from)
    requires forall i | from <= i < width :: Answered(m, b, x, width, i)
    ensures Answers(m, b, filled, width)
    ensures filled[from..] == x[from..]
  {
    if from == 0 {
      return x;
    }
    var row := from - 1;
    var value := (b[row] - DotFrom(m[row], x, from, width)) / m[row][row];
    var y := x[row := value];
    Divided(m[row][row], b[row] - DotFrom(m[row], x, from, width), value);
    RowSettled(m, b, width, row, x, y);
    filled := FilledBack(m, b, width, row, y);
    assert filled[from..] == filled[row..][1..] == y[row..][1..] == x[from..];
  }

  lemma Unmoved(m: Matrix, width: nat, from: nat, i: nat, x: seq<real>, y: seq<real>)
    requires Square(m, width) && 0 < from <= i < width && |x| == |y| == width
    requires Cleared(m, width, from)
    requires forall j | from <= j < width :: x[j] == y[j]
    ensures Dot(m[i], x, width) == Dot(m[i], y, width)
  {
    DotParted(m[i], x, from, width);
    DotParted(m[i], y, from, width);
    DotSilent(m[i], x, from);
    DotSilent(m[i], y, from);
    DotFromAgrees(m[i], x, y, from, width);
  }

  /** A column with nothing left in it leaves the system without a single answer: something
      other than nothing is sent to nothing. */
  lemma SilentColumn(m: Matrix, width: nat, pivot: nat) returns (x: seq<real>)
    requires Square(m, width) && pivot < width && Cleared(m, width, pivot)
    requires forall i | pivot <= i < width :: m[i][pivot] == 0.0
    ensures Answers(m, Zeros(width), x, width) && x != Zeros(width)
  {
    var start := Zeros(width)[pivot := 1.0];
    forall i | pivot <= i < width ensures Answered(m, Zeros(width), start, width, i) {
      DotSilent(m[i], start, width);
    }
    x := FilledBack(m, Zeros(width), width, pivot, start);
    assert x[pivot] == x[pivot..][0] == start[pivot..][0] == 1.0;
  }

  /** A triangular system has one answer. */
  lemma {:induction false} OneAnswer(m: Matrix, b: seq<real>, width: nat, from: nat, x: seq<real>, y: seq<real>)
    requires Square(m, width) && |b| == width && from <= width && Cleared(m, width, width)
    requires Answers(m, b, x, width) && Answers(m, b, y, width)
    ensures x[from..] == y[from..]
    decreases width - from
  {
    if from < width {
      OneAnswer(m, b, width, from + 1, x, y);
      forall j | from < j < width ensures x[j] == y[j] {
        assert x[j] == x[from + 1..][j - from - 1] == y[from + 1..][j - from - 1];
      }
      OneUnknown(m, b, width, from, x, y);
    }
  }

  lemma OneUnknown(m: Matrix, b: seq<real>, width: nat, row: nat, x: seq<real>, y: seq<real>)
    requires Square(m, width) && |b| == width && row < width && Cleared(m, width, width)
    requires Answers(m, b, x, width) && Answers(m, b, y, width)
    requires forall j | row < j < width :: x[j] == y[j]
    ensures x[row] == y[row]
  {
    DotFromAgrees(m[row], x, y, row + 1, width);
    assert Answered(m, b, x, width, row) && Answered(m, b, y, width, row);
    RowOf(m, width, width, row, x);
    RowOf(m, width, width, row, y);
    Cancelling(m[row][row], x[row], y[row], DotFrom(m[row], x, row + 1, width), b[row]);
  }

  lemma Cancelling(lead: real, one: real, other: real, rest: real, sum: real)
    requires lead != 0.0 && lead * one + rest == sum && lead * other + rest == sum
    ensures one == other
  {
    assert lead * one == lead * other;
    assert one == lead * one / lead && other == lead * other / lead;
  }

  // ---------------------------------------------------------------- elimination in place

  /** The rows an in-place matrix holds. */
  function Rows(m: array2<real>): (rows: Matrix)
    reads m
    ensures |rows| == m.Length0
    ensures forall i | 0 <= i < m.Length0 :: |rows[i]| == m.Length1
    ensures forall i, j | 0 <= i < m.Length0 && 0 <= j < m.Length1 :: rows[i][j] == m[i, j]
  {
    seq(m.Length0, i requires 0 <= i < m.Length0 reads m =>
      seq(m.Length1, j requires 0 <= j < m.Length1 reads m => m[i, j]))
  }

  /** The last row from `pivot` on whose entry in that column is the largest in size. */
  method LargestFrom(normal: array2<real>, pivot: nat) returns (largest: nat)
    requires pivot < normal.Length0 && pivot < normal.Length1
    ensures pivot <= largest < normal.Length0
    ensures forall i | pivot <= i < normal.Length0 :: Abs(normal[i, pivot]) <= Abs(normal[largest, pivot])
    ensures forall i | largest < i < normal.Length0 :: Abs(normal[i, pivot]) < Abs(normal[largest, pivot])
  {
    largest := pivot;
    for row := pivot + 1 to normal.Length0
      invariant pivot <= largest < row
      invariant forall i | pivot <= i < row :: Abs(normal[i, pivot]) <= Abs(normal[largest, pivot])
      invariant forall i | largest < i < row :: Abs(normal[i, pivot]) < Abs(normal[largest, pivot])
    {
      if Abs(normal[largest, pivot]) <= Abs(normal[row, pivot]) {
        largest := row;
      }
    }
  }

  method Exchange(normal: array2<real>, projected: array<real>, one: nat, other: nat)
    requires normal.Length0 == normal.Length1 == projected.Length
    requires one < projected.Length && other < projected.Length && one != other
    modifies normal, projected
    ensures Exchanged(old(Rows(normal)), old(projected[..]), one, other, Rows(normal), projected[..], projected.Length)
  {
    var width := projected.Length;
    for column := 0 to width
      invariant projected[..] == old(projected[..])
      invariant forall j | 0 <= j < column ::
        normal[one, j] == old(normal[other, j]) && normal[other, j] == old(normal[one, j])
      invariant forall i, j | 0 <= i < width && 0 <= j < width && ((i != one && i != other) || column <= j) ::
        normal[i, j] == old(normal[i, j])
    {
      normal[one, column], normal[other, column] := normal[other, column], normal[one, column];
    }
    projected[one], projected[other] := projected[other], projected[one];
    var was, now := old(Rows(normal)), Rows(normal);
    assert forall i | 0 <= i < width :: now[i] == was[one := was[other]][other := was[one]][i];
  }

  /** One row less a multiple of the leading one, from the leading column on: nothing before
      that column is left in either. */
  method Lessen(normal: array2<real>, projected: array<real>, below: nat, pivot: nat, factor: real)
    requires normal.Length0 == normal.Length1 == projected.Length
    requires pivot < below < projected.Length
    requires forall j | 0 <= j < pivot :: normal[below, j] == 0.0 && normal[pivot, j] == 0.0
    modifies normal, projected
    ensures Lessened(old(Rows(normal)), old(projected[..]), below, pivot, factor,
      Rows(normal), projected[..], projected.Length)
  {
    var width := projected.Length;
    for column := pivot to width
      invariant projected[..] == old(projected[..])
      invariant forall j | pivot <= j < column ::
        normal[below, j] == Added(old(normal[below, j]), -factor, old(normal[pivot, j]))
      invariant forall i, j | 0 <= i < width && 0 <= j < width && (i != below || j < pivot || column <= j) ::
        normal[i, j] == old(normal[i, j])
    {
      normal[below, column] := Added(normal[below, column], -factor, normal[pivot, column]);
    }
    projected[below] := Added(projected[below], -factor, projected[pivot]);
    var was, now := old(Rows(normal)), Rows(normal);
    assert forall i | 0 <= i < width && i != below :: now[i] == was[i];
    assert now == was[below := now[below]];
  }

  /** Both the system and the same rows with nothing on the right keep their answers. */
  ghost predicate SameSystem(m: Matrix, b: seq<real>, n: Matrix, c: seq<real>, width: nat)
    requires Square(m, width) && Square(n, width) && |b| == |c| == width
  {
    Alike(m, b, n, c, width) && Alike(m, Zeros(width), n, Zeros(width), width)
  }

  /** One row under the leading one loses its entry in the leading column. */
  method ClearOne(normal: array2<real>, projected: array<real>, below: nat, pivot: nat)
    requires normal.Length0 == normal.Length1 == projected.Length
    requires pivot < below < projected.Length && Cleared(Rows(normal), projected.Length, pivot)
    requires normal[pivot, pivot] != 0.0
    modifies normal, projected
    ensures SameSystem(old(Rows(normal)), old(projected[..]), Rows(normal), projected[..], projected.Length)
    ensures Cleared(Rows(normal), projected.Length, pivot)
    ensures forall i | 0 <= i < projected.Length && i != below :: Rows(normal)[i] == old(Rows(normal))[i]
    ensures Rows(normal)[below][pivot] == 0.0
  {
    ghost var m, b := Rows(normal), projected[..];
    var factor := normal[below, pivot] / normal[pivot, pivot];
    assert forall j | 0 <= j < pivot :: m[below][j] == 0.0 && m[pivot][j] == 0.0;
    Lessen(normal, projected, below, pivot, factor);
    OneCleared(m, b, below, pivot, factor, Rows(normal), projected[..], projected.Length);
  }

  lemma OneCleared(m: Matrix, b: seq<real>, row: nat, lead: nat, factor: real, n: Matrix, c: seq<real>, width: nat)
    requires Square(m, width) && Square(n, width) && |b| == |c| == width && lead < row < width
    requires Lessened(m, b, row, lead, factor, n, c, width) && Cleared(m, width, lead)
    requires m[lead][lead] != 0.0 && factor == m[row][lead] / m[lead][lead]
    ensures SameSystem(m, b, n, c, width) && Cleared(n, width, lead) && n[row][lead] == 0.0
    ensures forall i | 0 <= i < width && i != row :: n[i] == m[i]
  {
    LessenedSame(m, b, row, lead, factor, n, c, width);
    LessenedCleared(m, b, row, lead, factor, n, c, width);
    LessenedEntry(m, b, row, lead, factor, n, c, width);
  }

  lemma LessenedSame(m: Matrix, b: seq<real>, row: nat, lead: nat, factor: real, n: Matrix, c: seq<real>, width: nat)
    requires Square(m, width) && Square(n, width) && |b| == |c| == width && row < width && lead < width
    requires row != lead && Lessened(m, b, row, lead, factor, n, c, width)
    ensures SameSystem(m, b, n, c, width)
  {
    LessenedAlike(m, b, row, lead, factor, n, c, width);
    SilentLessened(m, b, row, lead, factor, n, c, width);
  }

  lemma LessenedEntry(m: Matrix, b: seq<real>, row: nat, lead: nat, factor: real, n: Matrix, c: seq<real>, width: nat)
    requires Square(m, width) && Square(n, width) && |b| == |c| == width && row < width && lead < width
    requires Lessened(m, b, row, lead, factor, n, c, width)
    requires m[lead][lead] != 0.0 && factor == m[row][lead] / m[lead][lead]
    ensures n[row][lead] == 0.0
  {
    Undone(m[row][lead], m[lead][lead]);
  }

  /** Every row under the leading one loses its entry in the leading column. */
  method ClearBelow(normal: array2<real>, projected: array<real>, pivot: nat)
    requires normal.Length0 == normal.Length1 == projected.Length
    requires pivot < projected.Length && Cleared(Rows(normal), projected.Length, pivot)
    requires normal[pivot, pivot] != 0.0
    modifies normal, projected
    ensures SameSystem(old(Rows(normal)), old(projected[..]), Rows(normal), projected[..], projected.Length)
    ensures Cleared(Rows(normal), projected.Length, pivot + 1)
  {
    var width := projected.Length;
    ghost var m0, b0 := Rows(normal), projected[..];
    for below := pivot + 1 to width
      invariant SameSystem(m0, b0, Rows(normal), projected[..], width)
      invariant Cleared(Rows(normal), width, pivot)
      invariant Rows(normal)[pivot] == m0[pivot]
      invariant forall i | pivot < i < below :: Rows(normal)[i][pivot] == 0.0
    {
      ghost var m, b := Rows(normal), projected[..];
      assert normal[pivot, pivot] == m0[pivot][pivot];
      ClearOne(normal, projected, below, pivot);
      SameSystemInTurn(m0, b0, m, b, Rows(normal), projected[..], width);
    }
    ClearedOneMore(Rows(normal), width, pivot);
  }

  lemma ClearedOneMore(m: Matrix, width: nat, pivot: nat)
    requires Square(m, width) && pivot < width && Cleared(m, width, pivot)
    requires m[pivot][pivot] != 0.0
    requires forall i | pivot < i < width :: m[i][pivot] == 0.0
    ensures Cleared(m, width, pivot + 1)
  {
  }

  lemma LessenedCleared(m: Matrix, b: seq<real>, row: nat, lead: nat, factor: real, n: Matrix, c: seq<real>, width: nat)
    requires Square(m, width) && Square(n, width) && |b| == |c| == width && lead < row < width
    requires Lessened(m, b, row, lead, factor, n, c, width) && Cleared(m, width, lead)
    ensures Cleared(n, width, lead)
    ensures forall i | 0 <= i < width && i != row :: n[i] == m[i]
  {
    forall j | 0 <= j < lead ensures n[row][j] == 0.0 {
      assert m[row][j] == 0.0 && m[lead][j] == 0.0;
    }
  }

  lemma ExchangedCleared(m: Matrix, b: seq<real>, one: nat, other: nat, n: Matrix, c: seq<real>, width: nat)
    requires Square(m, width) && Square(n, width) && |b| == |c| == width && one < other < width
    requires Exchanged(m, b, one, other, n, c, width) && Cleared(m, width, one)
    ensures Cleared(n, width, one)
    ensures (forall i | one <= i < width :: m[i][one] == 0.0) ==> forall i | one <= i < width :: n[i][one] == 0.0
  {
  }

  lemma Undone(entry: real, lead: real)
    requires lead != 0.0
    ensures Added(entry, -(entry / lead), lead) == 0.0
  {
    assert entry / lead * lead == entry;
  }

  lemma SilentLessened(m: Matrix, b: seq<real>, row: nat, lead: nat, factor: real, n: Matrix, c: seq<real>, width: nat)
    requires Square(m, width) && Square(n, width) && |b| == |c| == width && row < width && lead < width
    requires row != lead && Lessened(m, b, row, lead, factor, n, c, width)
    ensures Alike(m, Zeros(width), n, Zeros(width), width)
  {
    var zeros := Zeros(width);
    assert zeros[row := Added(zeros[row], -factor, zeros[lead])] == zeros;
    LessenedAlike(m, zeros, row, lead, factor, n, zeros, width);
  }

  /** The leading entry brought to the diagonal: whether any is left in the column. */
  method BringLargest(normal: array2<real>, projected: array<real>, pivot: nat)
    requires normal.Length0 == normal.Length1 == projected.Length
    requires pivot < projected.Length && Cleared(Rows(normal), projected.Length, pivot)
    modifies normal, projected
    ensures SameSystem(old(Rows(normal)), old(projected[..]), Rows(normal), projected[..], projected.Length)
    ensures Cleared(Rows(normal), projected.Length, pivot)
    ensures normal[pivot, pivot] == 0.0 ==>
      forall i | pivot <= i < projected.Length :: Rows(normal)[i][pivot] == 0.0
  {
    var width := projected.Length;
    ghost var m, b := Rows(normal), projected[..];
    var largest := LargestFrom(normal, pivot);
    assert m[largest][pivot] == 0.0 ==> forall i | pivot <= i < width :: m[i][pivot] == 0.0;
    if largest != pivot {
      Exchange(normal, projected, pivot, largest);
      ghost var n, c := Rows(normal), projected[..];
      ExchangedAlike(m, b, pivot, largest, n, c, width);
      ghost var zeros := Zeros(width);
      ZerosExchanged(zeros, pivot, largest);
      ExchangedAlike(m, zeros, pivot, largest, n, zeros, width);
      ExchangedCleared(m, b, pivot, largest, n, c, width);
      assert normal[pivot, pivot] == n[pivot][pivot] == m[largest][pivot];
    }
  }

  lemma ZerosExchanged(zeros: seq<real>, one: nat, other: nat)
    requires one < |zeros| && other < |zeros| && forall i | 0 <= i < |zeros| :: zeros[i] == 0.0
    ensures zeros[one := zeros[other]][other := zeros[one]] == zeros
  {
  }

  /** Whether the rows send anything but nothing to nothing. */
  ghost predicate Singular(m: Matrix, width: nat)
    requires Square(m, width)
  {
    exists x | |x| == width :: x != Zeros(width) && Answers(m, Zeros(width), x, width)
  }

  lemma TriangularIsRegular(m: Matrix, b: seq<real>, width: nat, x: seq<real>)
    requires Square(m, width) && |b| == width && Cleared(m, width, width) && Answers(m, b, x, width)
    ensures !Singular(m, width)
    ensures forall y | |y| == width :: Answers(m, b, y, width) ==> y == x
  {
    var zeros := Zeros(width);
    forall i | 0 <= i < width ensures Answered(m, zeros, zeros, width, i) {
      DotSilent(m[i], zeros, width);
    }
    forall y | |y| == width && Answers(m, zeros, y, width) ensures y == zeros {
      OneAnswer(m, zeros, width, 0, y, zeros);
    }
    forall y | |y| == width && Answers(m, b, y, width) ensures y == x {
      OneAnswer(m, b, width, 0, y, x);
    }
  }

  /** Elimination and back substitution, for any width. A lead of nothing, which floating
      point would divide by, comes up exactly when the rows are singular; otherwise what is
      answered is the one solution of the system as it was given. */
  method Solved(normal: array2<real>, projected: array<real>) returns (solution: Option<seq<real>>)
    requires normal.Length0 == normal.Length1 == projected.Length
    modifies normal, projected
    ensures solution.None? <==> Singular(old(Rows(normal)), projected.Length)
    ensures solution.Some? ==>
      && Answers(old(Rows(normal)), old(projected[..]), solution.value, projected.Length)
      && forall y | |y| == projected.Length ::
           Answers(old(Rows(normal)), old(projected[..]), y, projected.Length) ==> y == solution.value
  {
    var width := projected.Length;
    ghost var m0, b0 := Rows(normal), projected[..];
    for pivot := 0 to width
      invariant SameSystem(m0, b0, Rows(normal), projected[..], width)
      invariant Cleared(Rows(normal), width, pivot)
    {
      ghost var m, b := Rows(normal), projected[..];
      BringLargest(normal, projected, pivot);
      ghost var n, c := Rows(normal), projected[..];
      SameSystemInTurn(m0, b0, m, b, n, c, width);
      if normal[pivot, pivot] == 0.0 {
        ghost var x := SilentColumn(n, width, pivot);
        assert Answers(m0, Zeros(width), x, width);
        return None;
      }
      ClearBelow(normal, projected, pivot);
      SameSystemInTurn(m0, b0, n, c, Rows(normal), projected[..], width);
    }
    var answered := BackSubstituted(normal, projected);
    TriangularIsRegular(Rows(normal), projected[..], width, answered);
    solution := Some(answered);
  }

  lemma SameSystemInTurn(m: Matrix, b: seq<real>, n: Matrix, c: seq<real>, o: Matrix, d: seq<real>, width: nat)
    requires Square(m, width) && Square(n, width) && Square(o, width) && |b| == |c| == |d| == width
    requires SameSystem(m, b, n, c, width) && SameSystem(n, c, o, d, width)
    ensures SameSystem(m, b, o, d, width)
  {
    AlikeInTurn(m, b, n, c, o, d, width);
    AlikeInTurn(m, Zeros(width), n, Zeros(width), o, Zeros(width), width);
  }

  method BackSubstituted(normal: array2<real>, projected: array<real>) returns (solution: seq<real>)
    requires normal.Length0 == normal.Length1 == projected.Length
    requires Cleared(Rows(normal), projected.Length, projected.Length)
    ensures Answers(Rows(normal), projected[..], solution, projected.Length)
  {
    var width := projected.Length;
    ghost var m, b := Rows(normal), projected[..];
    var found := new real[width](_ => 0.0);
    var row := width;
    while row > 0
      invariant 0 <= row <= width
      invariant Rows(normal) == m && projected[..] == b
      invariant forall i | row <= i < width :: Answered(m, b, found[..], width, i)
    {
      row := row - 1;
      ghost var before := found[..];
      var known := KnownAfter(normal, found, row);
      found[row] := (projected[row] - known) / normal[row, row];
      Divided(m[row][row], b[row] - known, found[row]);
      RowSettled(m, b, width, row, before, found[..]);
    }
    solution := found[..];
  }

  method KnownAfter(normal: array2<real>, found: array<real>, row: nat) returns (known: real)
    requires normal.Length0 == normal.Length1 == found.Length && row < found.Length
    ensures known == DotFrom(Rows(normal)[row], found[..], row + 1, found.Length)
  {
    known := 0.0;
    for column := row + 1 to found.Length
      invariant known == DotFrom(Rows(normal)[row], found[..], row + 1, column)
    {
      known := known + normal[row, column] * found[column];
    }
  }

  // ---------------------------------------------------------------- the normal equations

  /** What each sample is measured against: one row of `width` values for every sample. */
  ghost predicate Window(design: seq<seq<real>>, samples: seq<real>, width: nat) {
    |design| == |samples| && Even(design, width)
  }

  /** The normal matrix over the first `frames` rows: every column against every other. */
  ghost function NormalAt(design: seq<seq<real>>, width: nat, frames: nat): (m: Matrix)
    requires Even(design, width) && frames <= |design|
    ensures Square(m, width)
  {
    seq(width, i requires 0 <= i < width => Against(design, width, Column(design, width, i), frames))
  }

  /** How far each sample is from what the coefficients make of its row. */
  ghost function Missed(design: seq<seq<real>>, samples: seq<real>, width: nat, c: seq<real>): (missed: seq<real>)
    requires Window(design, samples, width) && |c| == width
    ensures |missed| == |samples|
    ensures forall t | 0 <= t < |samples| :: missed[t] == samples[t] - Modelled(design, width, c)[t]
  {
    seq(|samples|, t requires 0 <= t < |samples| => samples[t] - Modelled(design, width, c)[t])
  }

  /** The energy the coefficients leave behind. */
  ghost function Energy(design: seq<seq<real>>, samples: seq<real>, width: nat, c: seq<real>): real
    requires Window(design, samples, width) && |c| == width
  {
    var missed := Missed(design, samples, width, c);
    Dot(missed, missed, |samples|)
  }

  /** Coefficients that answer the normal equations leave nothing that any column still sees. */
  lemma NothingSeen(design: seq<seq<real>>, samples: seq<real>, width: nat, c: seq<real>, i: nat, frames: nat)
    requires Window(design, samples, width) && |c| == width && i < width && frames == |samples|
    requires Answers(NormalAt(design, width, frames), Against(design, width, samples, frames), c, width)
    ensures Against(design, width, Missed(design, samples, width, c), frames)[i] == 0.0
  {
    var column, missed, modelled :=
      Column(design, width, i), Missed(design, samples, width, c), Modelled(design, width, c);
    SeenAlike(design, samples, width, c, i, frames);
    AgainstOne(design, width, missed, i, frames);
    DotApart(samples, modelled, missed, column, frames);
  }

  /** One normal equation answered: its column sees as much in the model as in the samples. */
  lemma SeenAlike(design: seq<seq<real>>, samples: seq<real>, width: nat, c: seq<real>, i: nat, frames: nat)
    requires Window(design, samples, width) && |c| == width && i < width && frames == |samples|
    requires Answers(NormalAt(design, width, frames), Against(design, width, samples, frames), c, width)
    ensures Dot(Modelled(design, width, c), Column(design, width, i), frames)
      == Dot(samples, Column(design, width, i), frames)
  {
    var column := Column(design, width, i);
    assert Answered(NormalAt(design, width, frames), Against(design, width, samples, frames), c, width, i);
    AgainstOne(design, width, samples, i, frames);
    SummedEitherWay(design, width, column, c, frames);
    DotCommutes(Modelled(design, width, c), column, frames);
  }

  /** Coefficients that answer the normal equations leave no more energy than any others. */
  lemma LeastSquares(design: seq<seq<real>>, samples: seq<real>, width: nat, c: seq<real>, d: seq<real>, frames: nat)
    requires Window(design, samples, width) && |c| == |d| == width && frames == |samples|
    requires Answers(NormalAt(design, width, frames), Against(design, width, samples, frames), c, width)
    ensures Energy(design, samples, width, c) <= Energy(design, samples, width, d)
  {
    var change := seq(width, j requires 0 <= j < width => d[j] - c[j]);
    var one, other, moved :=
      Missed(design, samples, width, c), Missed(design, samples, width, d), Modelled(design, width, change);
    forall t | 0 <= t < frames ensures other[t] == one[t] - moved[t] {
      DotMoved(design[t], c, change, d, width);
    }
    var seen := Against(design, width, one, frames);
    forall i | 0 <= i < width ensures seen[i] == 0.0 {
      NothingSeen(design, samples, width, c, i, frames);
    }
    DotSilent(seen, change, width);
    SummedEitherWay(design, width, one, change, frames);
    EnergyApart(one, moved, other, frames);
  }

  /** Vectors at right angles: their difference holds the energy of both. */
  lemma EnergyApart(one: seq<real>, moved: seq<real>, other: seq<real>, n: nat)
    requires n == |one| == |moved| == |other|
    requires forall t | 0 <= t < n :: other[t] == one[t] - moved[t]
    requires Dot(one, moved, n) == 0.0
    ensures Dot(other, other, n) == Dot(one, one, n) + Dot(moved, moved, n)
    ensures Dot(moved, moved, n) >= 0.0
  {
    DotApart(one, moved, other, other, n);
    DotCommutes(one, other, n);
    DotCommutes(moved, other, n);
    DotApart(one, moved, other, one, n);
    DotApart(one, moved, other, moved, n);
    DotCommutes(moved, one, n);
    EnergyShows(moved, n);
  }

  lemma {:induction false} EnergyShows(v: seq<real>, n: nat)
    requires n <= |v|
    ensures Dot(v, v, n) >= 0.0
    ensures Dot(v, v, n) == 0.0 ==> forall t | 0 <= t < n :: v[t] == 0.0
  {
    if n > 0 {
      EnergyShows(v, n - 1);
      if v[n - 1] != 0.0 && v[n - 1] * v[n - 1] == 0.0 {
        NoFactor(v[n - 1] * v[n - 1], v[n - 1], v[n - 1]);
      }
    }
  }

  /** Coefficients, not all nothing, that every row of the window sends to nothing: adding
      them to any others changes no sample. */
  ghost predicate Dependent(design: seq<seq<real>>, width: nat)
    requires Even(design, width)
  {
    exists x | |x| == width :: x != Zeros(width) && Unseen(design, width, x)
  }

  ghost predicate Unseen(design: seq<seq<real>>, width: nat, x: seq<real>)
    requires Even(design, width) && |x| == width
  {
    forall t | 0 <= t < |design| :: Modelled(design, width, x)[t] == 0.0
  }

  /** The normal equations are singular exactly when the window's columns are dependent. */
  lemma SingularWhenDependent(design: seq<seq<real>>, width: nat, frames: nat)
    requires Even(design, width) && frames == |design|
    ensures Singular(NormalAt(design, width, frames), width) <==> Dependent(design, width)
  {
    var m := NormalAt(design, width, frames);
    forall x | |x| == width
      ensures Answers(m, Zeros(width), x, width) <==> Unseen(design, width, x)
    {
      if Answers(m, Zeros(width), x, width) {
        SentToNothing(design, width, x, frames);
      }
      if Unseen(design, width, x) {
        forall i | 0 <= i < width ensures Answered(m, Zeros(width), x, width, i) {
          var column := Column(design, width, i);
          SummedEitherWay(design, width, column, x, frames);
          DotSilent(column, Modelled(design, width, x), frames);
        }
      }
    }
  }

  /** What the normal matrix sends to nothing the window does too, or its energy would show. */
  lemma SentToNothing(design: seq<seq<real>>, width: nat, x: seq<real>, frames: nat)
    requires Even(design, width) && |x| == width && frames == |design|
    requires Answers(NormalAt(design, width, frames), Zeros(width), x, width)
    ensures Unseen(design, width, x)
  {
    var modelled := Modelled(design, width, x);
    var seen := Against(design, width, modelled, frames);
    forall i | 0 <= i < width ensures seen[i] == 0.0 {
      var column := Column(design, width, i);
      AgainstOne(design, width, modelled, i, frames);
      DotCommutes(modelled, column, frames);
      SummedEitherWay(design, width, column, x, frames);
      assert Answered(NormalAt(design, width, frames), Zeros(width), x, width, i);
    }
    SummedEitherWay(design, width, modelled, x, frames);
    DotSilent(seen, x, width);
    EnergyShows(modelled, frames);
  }

  /** The energy left behind, sample by sample. */
  method EnergyWithout(design: seq<seq<real>>, samples: seq<real>, width: nat, fitted: seq<real>) returns (energy: real)
    requires Window(design, samples, width) && |fitted| == width
    ensures energy == Energy(design, samples, width, fitted)
  {
    ghost var missed := Missed(design, samples, width, fitted);
    energy := 0.0;
    for t := 0 to |samples|
      invariant energy == Dot(missed, missed, t)
    {
      var modelled := 0.0;
      for across := 0 to width
        invariant modelled == Dot(design[t], fitted, across)
      {
        modelled := modelled + design[t][across] * fitted[across];
      }
      var miss := samples[t] - modelled;
      energy := energy + miss * miss;
    }
  }

  /** One sample's row added to the normal equations in place. */
  method Noted(row: seq<real>, sample: real, normal: array2<real>, projected: array<real>)
    requires normal.Length0 == normal.Length1 == projected.Length == |row|
    modifies normal, projected
    ensures projected[..] == AddedTo(old(projected[..]), sample, row)
    ensures forall i | 0 <= i < |row| :: Rows(normal)[i] == AddedTo(old(Rows(normal))[i], row[i], row)
  {
    var width := |row|;
    for across := 0 to width
      invariant forall i | across <= i < width :: projected[i] == old(projected[i])
      invariant forall i | 0 <= i < across :: projected[i] == Added(old(projected[i]), sample, row[i])
      invariant forall i, j | across <= i < width && 0 <= j < width :: normal[i, j] == old(normal[i, j])
      invariant forall i, j | 0 <= i < across && 0 <= j < width ::
        normal[i, j] == Added(old(normal[i, j]), row[i], row[j])
    {
      projected[across] := Added(projected[across], sample, row[across]);
      NotedAcross(row, normal, across);
    }
  }

  method NotedAcross(row: seq<real>, normal: array2<real>, across: nat)
    requires normal.Length0 == normal.Length1 == |row| && across < |row|
    modifies normal
    ensures forall i, j | 0 <= i < |row| && 0 <= j < |row| && i != across :: normal[i, j] == old(normal[i, j])
    ensures forall j | 0 <= j < |row| :: normal[across, j] == Added(old(normal[across, j]), row[across], row[j])
  {
    for down := 0 to |row|
      invariant forall i, j | 0 <= i < |row| && 0 <= j < |row| && (i != across || j >= down) ::
        normal[i, j] == old(normal[i, j])
      invariant forall j | 0 <= j < down :: normal[across, j] == Added(old(normal[across, j]), row[across], row[j])
    {
      normal[across, down] := Added(normal[across, down], row[across], row[down]);
    }
  }

  lemma NormalGrows(design: seq<seq<real>>, width: nat, t: nat, m: Matrix)
    requires Even(design, width) && t < |design| && Square(m, width)
    requires forall i | 0 <= i < width :: m[i] == AddedTo(NormalAt(design, width, t)[i], design[t][i], design[t])
    ensures m == NormalAt(design, width, t + 1)
  {
    forall i | 0 <= i < width ensures m[i] == NormalAt(design, width, t + 1)[i] {
    }
  }

  /** The fit of a window: nothing only where its columns are dependent, and otherwise
      coefficients that leave no more energy than any others would. */
  method Fitted(design: seq<seq<real>>, samples: seq<real>, width: nat) returns (fitted: Option<seq<real>>)
    requires Window(design, samples, width)
    ensures fitted.None? <==> Dependent(design, width)
    ensures fitted.Some? ==> |fitted.value| == width && forall d | |d| == width ::
      Energy(design, samples, width, fitted.value) <= Energy(design, samples, width, d)
  {
    var normal := new real[width, width]((_, _) => 0.0);
    var projected := new real[width](_ => 0.0);
    assert forall i | 0 <= i < width :: Rows(normal)[i] == Zeros(width);
    assert Rows(normal) == NormalAt(design, width, 0);
    for t := 0 to |samples|
      invariant Rows(normal) == NormalAt(design, width, t)
      invariant projected[..] == Against(design, width, samples, t)
    {
      Noted(design[t], samples[t], normal, projected);
      NormalGrows(design, width, t, Rows(normal));
    }
    ghost var frames := |samples|;
    fitted := Solved(normal, projected);
    SingularWhenDependent(design, width, frames);
    if fitted.Some? {
      forall d | |d| == width
        ensures Energy(design, samples, width, fitted.value) <= Energy(design, samples, width, d)
      {
        LeastSquares(design, samples, width, fitted.value, d, frames);
      }
    }
  }
}
