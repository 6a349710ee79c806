/** Sums of products over the first `n` entries of two real vectors, and the few
    laws the numerical kernels rest on. */
module Vectors {

  function Dot(a: seq<real>, b: seq<real>, n: nat): real
    requires n <= |a| && n <= |b|
  {
    Products(a, b, n)
  }

  function Products(a: seq<real>, b: seq<real>, n: nat): real
    requires n <= |a| && n <= |b|
  {
    if n == 0 then 0.0 else Products(a, b, n - 1) + a[n - 1] * b[n - 1]
  }

  function Abs(x: real): real {
    if x < 0.0 then -x else x
  }

  function Max(x: real, y: real): real {
    if x < y then y else x
  }

  function Min(x: real, y: real): real {
    if x < y then x else y
  }

  /** One entry moved by a multiple of another. */
  function Added(one: real, scale: real, other: real): real {
    one + scale * other
  }

  /** A sum reads nothing but the entries it sums over. */
  lemma {:induction false} DotAgrees(a: seq<real>, b: seq<real>, c: seq<real>, d: seq<real>, n: nat)
    requires n <= |a| && n <= |b| && n <= |c| && n <= |d|
    requires forall i | 0 <= i < n :: a[i] == c[i]
    requires forall i | 0 <= i < n :: b[i] == d[i]
    ensures Dot(a, b, n) == Dot(c, d, n)
  {
    if n > 0 {
      var i := n - 1;
      DotAgrees(a, b, c, d, i);
      assert a[i] == c[i] && b[i] == d[i];
      SameProducts(a[i], b[i], c[i], d[i]);
      assert Dot(a, b, n) == Dot(a, b, i) + a[i] * b[i];
      assert Dot(c, d, n) == Dot(c, d, i) + c[i] * d[i];
    }
  }

  lemma SameProducts(a: real, b: real, c: real, d: real)
    requires a == c && b == d
    ensures a * b == c * d
  {
  }

  /** The sum is linear in its first vector. */
  lemma {:induction false} DotCombined(
    a: seq<real>, scale: real, b: seq<real>, sum: seq<real>, x: seq<real>, n: nat)
    requires n <= |a| && n <= |b| && n <= |sum| && n <= |x|
    requires forall i | 0 <= i < n :: sum[i] == Added(a[i], scale, b[i])
    ensures Dot(sum, x, n) == Dot(a, x, n) + scale * Dot(b, x, n)
  {
    if n > 0 {
      DotCombined(a, scale, b, sum, x, n - 1);
      Spread(a[n - 1], scale, b[n - 1], x[n - 1], Dot(b, x, n - 1));
    }
  }

  lemma {:induction false} DotScaled(x: seq<real>, scale: real, a: seq<real>, scaled: seq<real>, n: nat)
    requires n <= |x| && n <= |a| && n <= |scaled|
    requires forall i | 0 <= i < n :: scaled[i] == scale * a[i]
    ensures Dot(x, scaled, n) == scale * Dot(x, a, n)
  {
    if n > 0 {
      DotScaled(x, scale, a, scaled, n - 1);
      var i := n - 1;
      assert x[i] * scaled[i] == scale * (x[i] * a[i]);
    }
  }

  lemma {:induction false} DotApart(a: seq<real>, b: seq<real>, apart: seq<real>, x: seq<real>, n: nat)
    requires n <= |a| && n <= |b| && n <= |apart| && n <= |x|
    requires forall i | 0 <= i < n :: apart[i] == a[i] - b[i]
    ensures Dot(apart, x, n) == Dot(a, x, n) - Dot(b, x, n)
  {
    if n > 0 {
      var i := n - 1;
      DotApart(a, b, apart, x, i);
      assert Dot(apart, x, n) == Dot(apart, x, i) + apart[i] * x[i];
      assert Dot(a, x, n) == Dot(a, x, i) + a[i] * x[i];
      assert Dot(b, x, n) == Dot(b, x, i) + b[i] * x[i];
      Spread(a[i], -1.0, b[i], x[i], 0.0);
    }
  }

  /** The sum is linear in its second vector. */
  lemma {:induction false} DotMoved(x: seq<real>, a: seq<real>, b: seq<real>, sum: seq<real>, n: nat)
    requires n <= |a| && n <= |b| && n <= |sum| && n <= |x|
    requires forall i | 0 <= i < n :: sum[i] == a[i] + b[i]
    ensures Dot(x, sum, n) == Dot(x, a, n) + Dot(x, b, n)
  {
    if n > 0 {
      var i := n - 1;
      DotMoved(x, a, b, sum, i);
      assert Dot(x, sum, n) == Dot(x, sum, i) + x[i] * sum[i];
      assert Dot(x, a, n) == Dot(x, a, i) + x[i] * a[i];
      assert Dot(x, b, n) == Dot(x, b, i) + x[i] * b[i];
      Factored(x[i], a[i], b[i]);
    }
  }

  lemma Spread(one: real, scale: real, other: real, into: real, before: real)
    ensures Added(one, scale, other) * into + scale * before == one * into + scale * (before + other * into)
  {
  }

  lemma NoFactor(product: real, x: real, y: real)
    requires product == x * y && product == 0.0 && y != 0.0
    ensures x == 0.0
  {
    assert x == product / y;
  }

  /** Factors common to two products. */
  lemma Factored(k: real, one: real, other: real)
    ensures k * one + k * other == k * (one + other)
  {
  }

  lemma {:induction false} DotCommutes(a: seq<real>, b: seq<real>, n: nat)
    requires n <= |a| && n <= |b|
    ensures Dot(a, b, n) == Dot(b, a, n)
  {
    if n > 0 {
      DotCommutes(a, b, n - 1);
    }
  }

  /** The first term taken out of the sum. */
  lemma {:induction false} DotFirst(a: seq<real>, b: seq<real>, n: nat)
    requires 0 < n <= |a| && n <= |b|
    ensures Dot(a, b, n) == a[0] * b[0] + Dot(a[1..], b[1..], n - 1)
  {
    if n > 1 {
      DotFirst(a, b, n - 1);
      assert Dot(a[1..], b[1..], n - 1) == Dot(a[1..], b[1..], n - 2) + a[n - 1] * b[n - 1];
    } else {
      assert Dot(a, b, 1) == Dot(a, b, 0) + a[0] * b[0];
    }
  }

  /** Summing backwards gives the same sum. */
  lemma {:induction false} DotReversed(a: seq<real>, b: seq<real>, c: seq<real>, d: seq<real>, n: nat)
    requires n <= |a| && n <= |b| && n <= |c| && n <= |d|
    requires forall i | 0 <= i < n :: c[i] == a[n - 1 - i]
    requires forall i | 0 <= i < n :: d[i] == b[n - 1 - i]
    ensures Dot(a, b, n) == Dot(c, d, n)
  {
    if n > 0 {
      DotFirst(c, d, n);
      DotReversed(a, b, c[1..], d[1..], n - 1);
    }
  }

  /** The part of the sum from `first` up to `n`. */
  function DotFrom(a: seq<real>, b: seq<real>, first: nat, n: nat): real
    requires first <= n <= |a| && n <= |b|
  {
    if n == first then 0.0 else DotFrom(a, b, first, n - 1) + a[n - 1] * b[n - 1]
  }

  lemma {:induction false} DotParted(a: seq<real>, b: seq<real>, first: nat, n: nat)
    requires first <= n <= |a| && n <= |b|
    ensures Dot(a, b, n) == Dot(a, b, first) + DotFrom(a, b, first, n)
  {
    if first < n {
      DotParted(a, b, first, n - 1);
    }
  }

  lemma {:induction false} DotFromAgrees(a: seq<real>, b: seq<real>, c: seq<real>, first: nat, n: nat)
    requires first <= n <= |a| && n <= |b| && n <= |c|
    requires forall i | first <= i < n :: b[i] == c[i]
    ensures DotFrom(a, b, first, n) == DotFrom(a, c, first, n)
  {
    if first < n {
      DotFromAgrees(a, b, c, first, n - 1);
    }
  }

  lemma {:induction false} DotSilent(a: seq<real>, b: seq<real>, n: nat)
    requires n <= |a| && n <= |b|
    requires forall i | 0 <= i < n :: a[i] == 0.0 || b[i] == 0.0
    ensures Dot(a, b, n) == 0.0
  {
    if n > 0 {
      DotSilent(a, b, n - 1);
    }
  }

  lemma {:induction false} DotFromSilent(a: seq<real>, b: seq<real>, first: nat, n: nat)
    requires first <= n <= |a| && n <= |b|
    requires forall i | first <= i < n :: a[i] == 0.0 || b[i] == 0.0
    ensures DotFrom(a, b, first, n) == 0.0
  {
    if first < n {
      DotFromSilent(a, b, first, n - 1);
    }
  }

  /** Weights that are never negative keep the order of what they weigh. */
  lemma {:induction false} DotWeighed(weights: seq<real>, a: seq<real>, b: seq<real>, n: nat)
    requires n <= |weights| && n <= |a| && n <= |b|
    requires forall i | 0 <= i < n :: weights[i] >= 0.0 && (weights[i] > 0.0 ==> a[i] <= b[i])
    ensures Dot(weights, a, n) <= Dot(weights, b, n)
  {
    if n > 0 {
      var i := n - 1;
      DotWeighed(weights, a, b, i);
      assert Dot(weights, a, n) == Dot(weights, a, i) + weights[i] * a[i];
      assert Dot(weights, b, n) == Dot(weights, b, i) + weights[i] * b[i];
      WeighedMore(Dot(weights, a, i), Dot(weights, b, i), weights[i], a[i], b[i]);
    } else {
      assert Dot(weights, a, 0) == Dot(weights, b, 0) == 0.0;
    }
  }

  lemma Weighed(weight: real, a: real, b: real)
    requires weight >= 0.0 && (weight > 0.0 ==> a <= b)
    ensures weight * a <= weight * b
  {
  }

  lemma WeighedMore(before: real, most: real, weight: real, a: real, b: real)
    requires before <= most && weight >= 0.0 && (weight > 0.0 ==> a <= b)
    ensures before + weight * a <= most + weight * b
  {
    Weighed(weight, a, b);
    var less, more := weight * a, weight * b;
    assert less <= more;
    assert before + less <= most + more;
  }

  lemma NeverNegative(a: real, b: real)
    requires a >= 0.0 && b >= 0.0
    ensures a * b >= 0.0
  {
  }

  lemma {:induction false} DotNeverNegative(a: seq<real>, b: seq<real>, n: nat)
    requires n <= |a| && n <= |b|
    requires forall i | 0 <= i < n :: a[i] >= 0.0 && b[i] >= 0.0
    ensures Dot(a, b, n) >= 0.0
  {
    if n > 0 {
      var i := n - 1;
      DotNeverNegative(a, b, i);
      NeverNegative(a[i], b[i]);
      assert Dot(a, b, n) == Dot(a, b, i) + a[i] * b[i];
    }
  }

  function Unit(i: int, j: int): real {
    if i == j then 1.0 else 0.0
  }

  /** A sum against a vector that is one in one place and nothing elsewhere. */
  lemma {:induction false} DotUnit(unit: seq<real>, at: nat, x: seq<real>, n: nat)
    requires at < n <= |unit| && n <= |x|
    requires forall i | 0 <= i < n :: unit[i] == Unit(i, at)
    ensures Dot(unit, x, n) == x[at]
  {
    DotParted(unit, x, at + 1, n);
    DotFromSilent(unit, x, at + 1, n);
    DotSilent(unit, x, at);
    assert Dot(unit, x, at + 1) == Dot(unit, x, at) + unit[at] * x[at];
  }

  /** One entry changed changes the sum by what that entry weighs. */
  lemma {:induction false} DotChanged(a: seq<real>, at: nat, more: real, changed: seq<real>, x: seq<real>, n: nat)
    requires at < n <= |a| && n <= |changed| && n <= |x|
    requires forall i | 0 <= i < n :: changed[i] == if i == at then a[i] + more else a[i]
    ensures Dot(changed, x, n) == Dot(a, x, n) + more * x[at]
  {
    var m := n - 1;
    assert Dot(a, x, n) == Dot(a, x, m) + a[m] * x[m];
    assert Dot(changed, x, n) == Dot(changed, x, m) + changed[m] * x[m];
    if m == at {
      DotAgrees(changed, x, a, x, m);
    } else {
      DotChanged(a, at, more, changed, x, m);
    }
  }
}
