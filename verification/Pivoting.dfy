/** A basis and its inverse, kept side by side while one column of the basis is exchanged
    for another. */
module Pivoting {
  import opened Vectors
  import opened Matrices

  ghost predicate Paired(inverse: Matrix, columns: Matrix, m: nat, r: nat, s: nat)
    requires |inverse| == |columns| == m && Even(inverse, m) && Even(columns, m) && r < m && s < m
  {
    Dot(inverse[r], columns[s], m) == Unit(r, s)
  }

  ghost predicate Crossed(inverse: Matrix, columns: Matrix, m: nat, c: nat, d: nat)
    requires |inverse| == |columns| == m && Even(inverse, m) && Even(columns, m) && c < m && d < m
  {
    Dot(Column(columns, m, c), Column(inverse, m, d), m) == Unit(c, d)
  }

  /** The rows of the one undo the columns of the other, whichever is applied first. */
  ghost predicate Inverts(inverse: Matrix, columns: Matrix, m: nat) {
    && |inverse| == |columns| == m && Even(inverse, m) && Even(columns, m)
    && (forall r, s | 0 <= r < m && 0 <= s < m :: Paired(inverse, columns, m, r, s))
    && (forall c, d | 0 <= c < m && 0 <= d < m :: Crossed(inverse, columns, m, c, d))
  }

  /** No two columns of an invertible basis are the same. */
  lemma ColumnsApart(inverse: Matrix, columns: Matrix, m: nat, r: nat, s: nat)
    requires Inverts(inverse, columns, m) && r < m && s < m && columns[r] == columns[s]
    ensures r == s
  {
    assert Paired(inverse, columns, m, r, r) && Paired(inverse, columns, m, r, s);
  }

  /** The basis gives back, entry by entry, any vector the inverse was applied to. */
  lemma GivenBack(inverse: Matrix, columns: Matrix, m: nat, a: seq<real>, c: nat)
    requires Inverts(inverse, columns, m) && |a| == m && c < m
    ensures Dot(Column(columns, m, c), Modelled(inverse, m, a), m) == a[c]
  {
    var row := Column(columns, m, c);
    SummedEitherWay(inverse, m, row, a, m);
    var unit := Against(inverse, m, row, m);
    forall d | 0 <= d < m ensures unit[d] == Unit(d, c) {
      AgainstOne(inverse, m, row, d, m);
      assert Crossed(inverse, columns, m, c, d);
    }
    DotUnit(unit, c, a, m);
  }

  /** One step of elimination on the inverse: the leaving row divided by its own factor, and
      every other row less its factor times that. */
  ghost predicate Pivoted(inverse: Matrix, factors: seq<real>, leaving: nat, next: Matrix, m: nat)
    requires |inverse| == |next| == |factors| == m && Even(inverse, m) && Even(next, m) && leaving < m
  {
    && inverse[leaving] == Scaled(factors[leaving], next[leaving])
    && forall r | 0 <= r < m && r != leaving :: next[r] == AddedTo(inverse[r], -factors[r], next[leaving])
  }

  function Scaled(scale: real, v: seq<real>): (scaled: seq<real>)
    ensures |scaled| == |v| && forall i | 0 <= i < |v| :: scaled[i] == scale * v[i]
  {
    seq(|v|, i requires 0 <= i < |v| => scale * v[i])
  }

  /** What a pivot makes of the inverse applied to any vector. */
  lemma PivotedApplied(inverse: Matrix, factors: seq<real>, leaving: nat, next: Matrix, m: nat, x: seq<real>, r: nat)
    requires |inverse| == |next| == |factors| == |x| == m && Even(inverse, m) && Even(next, m) && leaving < m && r < m
    requires Pivoted(inverse, factors, leaving, next, m)
    ensures Dot(inverse[leaving], x, m) == factors[leaving] * Dot(next[leaving], x, m)
    ensures r != leaving ==> Dot(next[r], x, m) == Dot(inverse[r], x, m) - factors[r] * Dot(next[leaving], x, m)
  {
    DotScaled(x, factors[leaving], next[leaving], inverse[leaving], m);
    DotCommutes(x, inverse[leaving], m);
    DotCommutes(x, next[leaving], m);
    if r != leaving {
      DotAddedTo(inverse[r], -factors[r], next[leaving], next[r], x, m);
    }
  }

  lemma PairedKept(
    inverse: Matrix, columns: Matrix, m: nat, entering: seq<real>, leaving: nat, next: Matrix, r: nat, s: nat)
    requires Inverts(inverse, columns, m) && |entering| == |next| == m && Even(next, m)
    requires leaving < m && r < m && s < m
    requires Pivoted(inverse, Modelled(inverse, m, entering), leaving, next, m)
    requires Modelled(inverse, m, entering)[leaving] != 0.0
    ensures Paired(next, columns[leaving := entering], m, r, s)
  {
    var factors := Modelled(inverse, m, entering);
    var x := columns[leaving := entering][s];
    PivotedApplied(inverse, factors, leaving, next, m, x, r);
    if s != leaving {
      assert Paired(inverse, columns, m, leaving, s) && Paired(inverse, columns, m, r, s);
    }
    PairedByFactors(factors[leaving], factors[r], Dot(next[leaving], x, m), Dot(inverse[leaving], x, m), s == leaving);
  }

  lemma PairedByFactors(lead: real, factor: real, now: real, was: real, entered: bool)
    requires lead != 0.0 && was == lead * now
    requires was == if entered then lead else 0.0
    ensures now == if entered then 1.0 else 0.0
    ensures factor * now == if entered then factor else 0.0
  {
    if entered {
      NoFactor(lead * now - lead, now - 1.0, lead);
    } else {
      NoFactor(lead * now, now, lead);
    }
  }

  /** Entry by entry, the exchanged basis still gives back what its inverse was applied to. */
  lemma CrossedKept(
    inverse: Matrix, columns: Matrix, m: nat, entering: seq<real>, leaving: nat, next: Matrix, c: nat, d: nat)
    requires Inverts(inverse, columns, m) && |entering| == |next| == m && Even(next, m)
    requires leaving < m && c < m && d < m
    requires Pivoted(inverse, Modelled(inverse, m, entering), leaving, next, m)
    ensures Crossed(next, columns[leaving := entering], m, c, d)
  {
    var factors := Modelled(inverse, m, entering);
    var exchanged := columns[leaving := entering];
    var row, column := Column(columns, m, c), Column(inverse, m, d);
    var nextRow, nextColumn := Column(exchanged, m, c), Column(next, m, d);
    var lead := next[leaving][d];
    // the column as it would be were the leaving row emptied like every other
    var emptied := AddedTo(column, -lead, factors);
    EmptiedColumn(inverse, factors, leaving, next, m, d);
    DotChanged(emptied, leaving, lead, nextColumn, nextRow, m);
    DotAgrees(emptied, row, emptied, row, m);
    DotChanged(row, leaving, entering[c] - row[leaving], nextRow, emptied, m);
    DotCommutes(emptied, nextRow, m);
    DotCommutes(emptied, row, m);
    DotAddedTo(column, -lead, factors, emptied, row, m);
    GivenBack(inverse, columns, m, entering, c);
    DotCommutes(factors, row, m);
    DotCommutes(column, row, m);
    DotCommutes(nextColumn, nextRow, m);
    assert Crossed(inverse, columns, m, c, d);
  }

  lemma EmptiedColumn(inverse: Matrix, factors: seq<real>, leaving: nat, next: Matrix, m: nat, d: nat)
    requires |inverse| == |next| == |factors| == m && Even(inverse, m) && Even(next, m) && leaving < m && d < m
    requires Pivoted(inverse, factors, leaving, next, m)
    ensures
      var emptied := AddedTo(Column(inverse, m, d), -next[leaving][d], factors);
      && emptied[leaving] == 0.0
      && forall s | 0 <= s < m && s != leaving :: next[s][d] == emptied[s]
  {
    var lead := next[leaving][d];
    assert inverse[leaving][d] == factors[leaving] * lead;
    forall s | 0 <= s < m && s != leaving
      ensures next[s][d] == Added(inverse[s][d], -lead, factors[s])
    {
      assert next[s][d] == Added(inverse[s][d], -factors[s], lead);
      Either(inverse[s][d], lead, factors[s]);
    }
    Either(inverse[leaving][d], lead, factors[leaving]);
  }

  lemma Either(entry: real, lead: real, factor: real)
    ensures Added(entry, -lead, factor) == Added(entry, -factor, lead) == entry - factor * lead
  {
  }

  /** A pivot on a factor that is something keeps the inverse an inverse, of the basis with
      the entering column in place of the leaving one. */
  lemma InvertsKept(inverse: Matrix, columns: Matrix, m: nat, entering: seq<real>, leaving: nat, next: Matrix)
    requires Inverts(inverse, columns, m) && |entering| == |next| == m && Even(next, m) && leaving < m
    requires Pivoted(inverse, Modelled(inverse, m, entering), leaving, next, m)
    requires Modelled(inverse, m, entering)[leaving] != 0.0
    ensures Inverts(next, columns[leaving := entering], m)
  {
    var exchanged := columns[leaving := entering];
    forall r, s | 0 <= r < m && 0 <= s < m ensures Paired(next, exchanged, m, r, s) {
      PairedKept(inverse, columns, m, entering, leaving, next, r, s);
    }
    forall c, d | 0 <= c < m && 0 <= d < m ensures Crossed(next, exchanged, m, c, d) {
      CrossedKept(inverse, columns, m, entering, leaving, next, c, d);
    }
  }

  /** The identity is its own inverse. */
  lemma IdentityInverts(identity: Matrix, m: nat)
    requires |identity| == m && Even(identity, m)
    requires forall i, j | 0 <= i < m && 0 <= j < m :: identity[i][j] == Unit(i, j)
    ensures Inverts(identity, identity, m)
  {
    forall r, s | 0 <= r < m && 0 <= s < m ensures Paired(identity, identity, m, r, s) {
      DotUnit(identity[r], r, identity[s], m);
    }
    forall c, d | 0 <= c < m && 0 <= d < m ensures Crossed(identity, identity, m, c, d) {
      DotUnit(Column(identity, m, c), c, Column(identity, m, d), m);
    }
  }
}
