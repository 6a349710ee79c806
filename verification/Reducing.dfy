/** A stream of any length held in fewer columns than a cap: columns that are full halve in
    number, each joining two, and every column joins twice as many units from then on. */
module Reducing {
  import opened Wrappers
  import opened Folding
  import opened Places

  /** One unit with a later one absorbed into it. */
  type Absorbing<!T(!new)> = (T, T) -> T

  ghost predicate Associates<T(!new)>(absorb: Absorbing<T>) {
    forall one: T, other: T, last: T {:trigger absorb(absorb(one, other), last)} ::
      absorb(absorb(one, other), last) == absorb(one, absorb(other, last))
  }

  /** Units absorbed one after another in their order. */
  function Folded<T(!new)>(absorb: Absorbing<T>, units: seq<T>): (folded: T)
    requires |units| > 0
    decreases |units|
  {
    if |units| == 1 then units[0]
    else absorb(Folded(absorb, units[..|units| - 1]), units[|units| - 1])
  }

  /** A fold of what was folded is the fold of everything. */
  lemma {:induction false} FoldsJoin<T(!new)>(absorb: Absorbing<T>, one: seq<T>, other: seq<T>)
    requires Associates(absorb) && |one| > 0 && |other| > 0
    ensures Folded(absorb, one + other) == absorb(Folded(absorb, one), Folded(absorb, other))
    decreases |other|
  {
    var both, last := one + other, |other| - 1;
    assert both[|both| - 1] == other[last];
    if last == 0 {
      assert both[..|both| - 1] == one;
    } else {
      assert both[..|both| - 1] == one + other[..last];
      FoldsJoin(absorb, one, other[..last]);
      assert absorb(absorb(Folded(absorb, one), Folded(absorb, other[..last])), other[last])
        == absorb(Folded(absorb, one), absorb(Folded(absorb, other[..last]), other[last]));
    }
  }

  /** The parts one after another. */
  function Flat<T>(parts: seq<seq<T>>): (flat: seq<T>) {
    Flattened(parts)
  }

  function Flattened<T>(parts: seq<seq<T>>): (flat: seq<T>)
    decreases |parts|
  {
    if parts == [] then [] else Flattened(parts[..|parts| - 1]) + parts[|parts| - 1]
  }

  lemma OnePartMore<T>(parts: seq<seq<T>>, part: seq<T>)
    ensures Flat(parts + [part]) == Flat(parts) + part
  {
    assert (parts + [part])[..|parts|] == parts;
  }

  lemma {:induction false} FlatOfFirst<T>(part: seq<T>, parts: seq<seq<T>>)
    ensures Flat([part] + parts) == part + Flat(parts)
    decreases |parts|
  {
    if parts == [] {
      assert [part] + parts == [] + [part];
      OnePartMore([], part);
    } else {
      var before, last := parts[..|parts| - 1], parts[|parts| - 1];
      FlatOfFirst(part, before);
      OnePartMore([part] + before, last);
      assert [part] + parts == [part] + before + [last];
      assert part + Flat(parts) == part + Flat(before) + last;
    }
  }

  /** The units of two columns next to each other, side by side. */
  function Paired<T>(parts: seq<seq<T>>): (paired: seq<seq<T>>)
    decreases |parts|
  {
    if |parts| <= 1 then parts else [parts[0] + parts[1]] + Paired(parts[2..])
  }

  lemma {:induction false} PairingLosesNothing<T>(parts: seq<seq<T>>)
    ensures Flat(Paired(parts)) == Flat(parts)
    decreases |parts|
  {
    if |parts| > 1 {
      var one, other, rest := parts[0], parts[1], parts[2..];
      PairingLosesNothing(rest);
      FlatOfFirst(one + other, Paired(rest));
      FlatOfFirst(other, rest);
      FlatOfFirst(one, [other] + rest);
      assert parts == [one] + ([other] + rest);
      assert one + (other + Flat(rest)) == one + other + Flat(rest);
    }
  }

  lemma {:induction false} EvenlyFlat<T>(parts: seq<seq<T>>, each: nat)
    requires Even(parts, each)
    ensures |Flat(parts)| == |parts| * each
    ensures forall k :: 0 <= k < |parts| ==> StandsAt(Flat(parts), k * each, parts[k])
    decreases |parts|
  {
    if parts != [] {
      var last := |parts| - 1;
      var before := parts[..last];
      EvenlyFlat(before, each);
      Distributes(last, 1, each);
      var flat := Flat(before);
      assert Flat(parts) == flat + parts[last];
      forall k | 0 <= k < |parts|
        ensures StandsAt(Flat(parts), k * each, parts[k])
      {
        if k < last {
          assert parts[k] == before[k] && StandsAt(flat, k * each, before[k]);
          StandsStill(flat, parts[last], k * each, parts[k]);
        }
      }
    }
  }

  ghost predicate StandsAt<T>(flat: seq<T>, from: int, part: seq<T>) {
    0 <= from <= from + |part| <= |flat| && flat[from..from + |part|] == part
  }

  lemma StandsStill<T>(flat: seq<T>, more: seq<T>, from: int, part: seq<T>)
    requires StandsAt(flat, from, part)
    ensures StandsAt(flat + more, from, part)
  {
    assert (flat + more)[from..from + |part|] == flat[from..from + |part|];
  }

  ghost predicate PowerOfTwo(n: nat)
    decreases n
  {
    n == 1 || (n > 1 && n % 2 == 0 && PowerOfTwo(n / 2))
  }

  /** Each column is the ordered fold of the units it is said to hold, at least one of them and no
      more than a column takes. */
  ghost predicate Columned<T(!new)>(absorb: Absorbing<T>, held: seq<T>, parts: seq<seq<T>>, perColumn: nat) {
    && |held| == |parts|
    && (forall k :: 0 <= k < |held| ==> 0 < |parts[k]| <= perColumn)
    && (forall k :: 0 <= k < |held| ==> held[k] == Folded(absorb, parts[k]))
  }

  ghost predicate Even<T>(parts: seq<seq<T>>, each: nat) {
    forall k :: 0 <= k < |parts| ==> |parts[k]| == each
  }

  /** Every part is of one length but the last, which may be shorter. */
  ghost predicate EvenButLast<T>(parts: seq<seq<T>>, each: nat) {
    && (forall k :: 0 <= k < |parts| ==> 0 < |parts[k]| <= each)
    && (forall k :: 0 <= k < |parts| - 1 ==> |parts[k]| == each)
  }

  /** Consecutive parts, each as long as may be. */
  function Cut<T>(whole: seq<T>, each: nat): (parts: seq<seq<T>>)
    requires each > 0
    decreases |whole|
  {
    if whole == [] then [] else if |whole| <= each then [whole] else [whole[..each]] + Cut(whole[each..], each)
  }

  /** Parts of one length but the last are cut from the whole in one way only. */
  lemma {:induction false} CutOneWay<T>(parts: seq<seq<T>>, each: nat)
    requires each > 0 && EvenButLast(parts, each)
    ensures parts == Cut(Flat(parts), each)
    decreases |parts|
  {
    if parts != [] {
      var first, rest := parts[0], parts[1..];
      assert parts == [first] + rest;
      FlatOfFirst(first, rest);
      if rest == [] {
        assert first + [] == first;
      } else {
        assert rest[0] == parts[1] && |parts[0]| == each;
        SomeIn(rest);
        CutOneWay(rest, each);
        assert (first + Flat(rest))[..each] == first && (first + Flat(rest))[each..] == Flat(rest);
      }
    }
  }

  lemma SomeIn<T>(parts: seq<seq<T>>)
    requires parts != [] && parts[0] != []
    ensures |Flat(parts)| > 0
  {
    FlatOfFirst(parts[0], parts[1..]);
    assert parts == [parts[0]] + parts[1..];
  }

  /** The columns after pairs of them were joined. */
  function Joined<T(!new)>(absorb: Absorbing<T>, held: seq<T>): (joined: seq<T>)
    ensures |joined| == (|held| + 1) / 2
    decreases |held|
  {
    if |held| <= 1 then held else [absorb(held[0], held[1])] + Joined(absorb, held[2..])
  }

  lemma {:induction false} JoiningFolds<T(!new)>(absorb: Absorbing<T>, held: seq<T>, parts: seq<seq<T>>, perColumn: nat)
    requires Associates(absorb) && Columned(absorb, held, parts, perColumn)
    ensures Columned(absorb, Joined(absorb, held), Paired(parts), perColumn * 2)
    ensures |held| % 2 == 0 && Even(parts, perColumn) ==> Even(Paired(parts), perColumn * 2)
    decreases |held|
  {
    if |held| > 1 {
      var one, other := parts[0], parts[1];
      FoldsJoin(absorb, one, other);
      JoiningFolds(absorb, held[2..], parts[2..], perColumn);
      assert 0 < |one + other| <= perColumn * 2;
    }
  }

  /** What the held columns keep between pushes. */
  ghost predicate Sound<T(!new)>(absorb: Absorbing<T>, cap: nat, held: seq<T>, parts: seq<seq<T>>, perColumn: nat) {
    && PowerOfTwo(perColumn)
    && Columned(absorb, held, parts, perColumn)
    && (cap % 2 == 0 ==> Even(parts, perColumn))
    && |held| < cap && (perColumn > 1 ==> 2 * |held| >= cap)
  }

  /** The same, but for one column too many. */
  ghost predicate Brimming<T(!new)>(absorb: Absorbing<T>, cap: nat, held: seq<T>, parts: seq<seq<T>>, perColumn: nat) {
    && PowerOfTwo(perColumn)
    && Columned(absorb, held, parts, perColumn)
    && (cap % 2 == 0 ==> Even(parts, perColumn))
    && |held| == cap
  }

  lemma OneMoreColumn<T(
    !new)>(absorb: Absorbing<T>, cap: nat, held: seq<T>, parts: seq<seq<T>>, perColumn: nat, part: seq<T>)
    requires Sound(absorb, cap, held, parts, perColumn) && |part| == perColumn
    ensures var more := held + [Folded(absorb, part)];
      if |more| >= cap then Brimming(absorb, cap, more, parts + [part], perColumn)
      else Sound(absorb, cap, more, parts + [part], perColumn)
    ensures Flat(parts + [part]) == Flat(parts) + part
  {
    assert (parts + [part])[..|parts|] == parts;
  }

  lemma HalvingIsSound<T(!new)>(absorb: Absorbing<T>, cap: nat, held: seq<T>, parts: seq<seq<T>>, perColumn: nat)
    requires Associates(absorb) && cap >= 2 && Brimming(absorb, cap, held, parts, perColumn)
    ensures Sound(absorb, cap, Joined(absorb, held), Paired(parts), perColumn * 2)
  {
    var joined, paired, wider := Joined(absorb, held), Paired(parts), perColumn * 2;
    assert |joined| < cap && 2 * |joined| >= cap;
    assert PowerOfTwo(wider) by {
      assert wider / 2 == perColumn;
    }
    JoiningFolds(absorb, held, parts, perColumn);
  }

  lemma OneMoreUnit<T(!new)>(absorb: Absorbing<T>, parts: seq<seq<T>>, part: seq<T>, pushed: T)
    ensures Flat(parts) + (part + [pushed]) == Flat(parts) + part + [pushed]
    ensures Folded(absorb, part + [pushed])
      == if part == [] then pushed else absorb(Folded(absorb, part), pushed)
  {
    assert (part + [pushed])[..|part|] == part;
  }

  /** The columns two at a time, the second absorbed into the first; one left over stays. */
  method JoinPairs<T(!new)>(absorb: Absorbing<T>, held: seq<T>) returns (joined: seq<T>)
    ensures joined == Joined(absorb, held)
  {
    joined := [];
    var left := held;
    while left != []
      invariant joined + Joined(absorb, left) == Joined(absorb, held)
      decreases |left|
    {
      var first, taken := left[0], 1;
      if |left| > 1 {
        first, taken := absorb(first, left[1]), 2;
      }
      assert Joined(absorb, left) == [first] + Joined(absorb, left[taken..]);
      joined := joined + [first];
      left := left[taken..];
    }
  }

  ghost predicate Keeps<T(!new)>(
    absorb: Absorbing<T>, cap: nat, held: seq<T>, parts: seq<seq<T>>, perColumn: nat, filling: Option<T>,
    part: seq<T>) {
    && Sound(absorb, cap, held, parts, perColumn)
    && |part| < perColumn
    && filling == (if part == [] then None else Some(Folded(absorb, part)))
  }

  class Doubling<T(!new)> {
    const absorb: Absorbing<T>
    const cap: nat
    var held: seq<T>
    var perColumn: nat
    var filling: Option<T>
    var filled: nat
    /** The units each column is the fold of, and those of the column being filled. */
    ghost var parts: seq<seq<T>>
    ghost var part: seq<T>

    /** Every unit pushed so far, in order. */
    ghost function Pushed(): (pushed: seq<T>)
      reads this
    {
      Flat(parts) + part
    }

    ghost predicate Valid()
      reads this
    {
      && Associates(absorb) && cap >= 2
      && filled == |part|
      && forall at: nat {:trigger Look(TheColumns, at)} | Look(TheColumns, at) ::
          Keeps(absorb, cap, held, parts, perColumn, filling, part)
    }

    constructor (absorb: Absorbing<T>, cap: nat)
      requires Associates(absorb)
      ensures Valid() && Pushed() == [] && this.absorb == absorb
      ensures this.cap == if cap > 2 then cap else 2
    {
      this.absorb := absorb;
      this.cap := if cap > 2 then cap else 2;
      held, perColumn, filling, filled := [], 1, None, 0;
      parts, part := [], [];
    }

    method Push(pushed: T)
      requires Valid()
      modifies this
      ensures Valid() && Pushed() == old(Pushed()) + [pushed]
    {
      assert Look(TheColumns, 0);
      OneMoreUnit(absorb, parts, part, pushed);
      filling := Some(if filling.None? then pushed else absorb(filling.value, pushed));
      part := part + [pushed];
      filled := filled + 1;
      assert Pushed() == old(Pushed()) + [pushed];
      if filled < perColumn {
        return;
      }

      OneMoreColumn(absorb, cap, held, parts, perColumn, part);
      held := held + [filling.value];
      parts := parts + [part];
      filling, filled, part := None, 0, [];
      assert Flat(parts) + [] == Flat(parts);
      if |held| >= cap {
        Halve();
      }
    }

    method Halve()
      requires Associates(absorb) && cap >= 2
      requires Brimming(absorb, cap, held, parts, perColumn)
      requires filled == 0 && part == [] && filling == None
      modifies this
      ensures Valid() && Pushed() == old(Pushed())
      ensures held == Joined(absorb, old(held)) && perColumn == 2 * old(perColumn)
    {
      HalvingIsSound(absorb, cap, held, parts, perColumn);
      PairingLosesNothing(parts);
      held := JoinPairs(absorb, held);
      parts := Paired(parts);
      perColumn := perColumn * 2;
    }

    /** What is held when nothing more comes: the last column may hold less than the others. */
    method Finished() returns (columns: seq<T>)
      requires Valid()
      ensures |columns| <= cap
      ensures Columned(absorb, columns, Columns(), perColumn)
      ensures Flat(Columns()) == Pushed()
      ensures perColumn > 0 && (cap % 2 == 0 ==> EvenButLast(Columns(), perColumn))
      ensures cap % 2 == 0 ==> perColumn == Widest(|Pushed()|, cap, 1)
    {
      assert Look(TheColumns, 0);
      if cap % 2 == 0 {
        HeldEvenly(absorb, cap, held, parts, perColumn, part);
        WidestIs(|Pushed()|, cap, perColumn, 1);
      }
      columns := if filling.None? then held else held + [filling.value];
      if part == [] {
        assert Flat(parts) + part == Flat(parts);
      } else {
        assert Columns()[..|parts|] == parts;
      }
    }

    /** The units of each column when nothing more comes. */
    ghost function Columns(): (columns: seq<seq<T>>)
      reads this
    {
      if part == [] then parts else parts + [part]
    }

  }

  /** An even cap leaves nothing to chance: what is held after so many units is the columns of
      the least power of two that leaves fewer columns than the cap. */
  lemma HeldEvenly<T(
    !new)>(absorb: Absorbing<T>, cap: nat, held: seq<T>, parts: seq<seq<T>>, perColumn: nat, part: seq<T>)
    requires Sound(absorb, cap, held, parts, perColumn) && cap % 2 == 0 && |part| < perColumn
    ensures |held| * perColumn + |part| == |Flat(parts) + part|
    ensures |Flat(parts) + part| < cap * perColumn
    ensures perColumn > 1 ==> |Flat(parts) + part| >= cap * (perColumn / 2)
    ensures forall k :: 0 <= k < |held| ==> HoldsAt(absorb, held[k], Flat(parts) + part, k * perColumn, perColumn)
  {
    EvenlyFlat(parts, perColumn);
    FewerThan(|held|, cap, perColumn, |part|);
    if perColumn > 1 {
      AtLeastHalf(|held|, cap, perColumn);
    }
    forall k | 0 <= k < |held|
      ensures HoldsAt(absorb, held[k], Flat(parts) + part, k * perColumn, perColumn)
    {
      var from := k * perColumn;
      assert StandsAt(Flat(parts), from, parts[k]);
      StandsStill(Flat(parts), part, from, parts[k]);
    }
  }

  /** The least doubling of a width at which so many units come to fewer columns than the cap. */
  function Widest(units: nat, cap: nat, each: nat): (widest: nat)
    requires cap > 0 && each > 0
    ensures widest > 0
    decreases if each <= units then units + 1 - each else 0
  {
    if units < Across(cap, each) then each else Widest(units, cap, 2 * each)
  }

  function Across(cap: nat, each: nat): (units: nat)
    ensures cap > 0 ==> units >= each
  {
    Distributes(if cap > 0 then cap - 1 else 0, 1, each);
    cap * each
  }

  /** Of two powers of two the lesser goes twice into the other at least. */
  lemma {:induction false} TwiceAtLeast(one: nat, other: nat)
    requires PowerOfTwo(one) && PowerOfTwo(other) && one < other
    ensures 2 * one <= other
    decreases one
  {
    if one > 1 {
      TwiceAtLeast(one / 2, other / 2);
    }
  }

  /** Only one power of two is wide enough of which the half is not. */
  lemma {:induction false} WidestIs(units: nat, cap: nat, each: nat, from: nat)
    requires cap > 0 && PowerOfTwo(each) && PowerOfTwo(from) && from <= each
    requires units < cap * each && (each > 1 ==> units >= cap * (each / 2))
    ensures Widest(units, cap, from) == each
    decreases each - from
  {
    if from < each {
      TwiceAtLeast(from, each);
      Steadily(from, each / 2, cap);
      assert PowerOfTwo(2 * from) by {
        assert 2 * from / 2 == from;
      }
      WidestIs(units, cap, each, 2 * from);
    }
  }

  /** A column that is the fold of so many consecutive units. */
  ghost predicate HoldsAt<T(!new)>(absorb: Absorbing<T>, column: T, units: seq<T>, from: int, many: nat) {
    0 <= from < from + many <= |units| && column == Folded(absorb, units[from..from + many])
  }

  lemma FewerThan(held: nat, cap: nat, each: nat, filled: nat)
    requires held < cap && filled < each
    ensures held * each + filled < cap * each
  {
    var more := cap - held - 1;
    assert cap == held + 1 + more;
    Distributes(held + 1, more, each);
    Distributes(held, 1, each);
  }

  lemma AtLeastHalf(held: nat, cap: nat, each: nat)
    requires 2 * held >= cap && each % 2 == 0
    ensures held * each >= cap * (each / 2)
  {
    var half := each / 2;
    assert each == 2 * half;
    assert held * each == (2 * held) * half;
    assert (2 * held) * half == cap * half + (2 * held - cap) * half;
  }
}
