/** The bands halved down to each one alone, laid out as one list of nodes, and the cheapest
    way to cover all of them with nodes that abut. */
module Trees {
  import opened Vectors
  import opened Wrappers

  datatype Node = Node(from: nat, to: nat, halves: Option<(nat, nat)>)

  /** Half way across the bands of a node. */
  function Middle(from: nat, to: nat): nat {
    (from + to) / 2
  }

  /** How many slots a node takes with all that is under it. */
  function Slots(from: nat, to: nat): (slots: nat)
    requires from < to
  {
    2 * (to - from) - 1
  }

  /** A node before its lower half, before its upper half. */
  function Preorder(index: nat, from: nat, to: nat): (nodes: seq<Node>)
    requires from < to
    ensures |nodes| == Slots(from, to)
    ensures nodes[0].from == from && nodes[0].to == to
    decreases if from < to then to - from else 0
  {
    if to - from == 1 then [Node(from, to, None)]
    else
      var middle := Middle(from, to);
      var lower, upper := index + 1, index + 2 * (middle - from);
      [Node(from, to, Some((lower, upper)))] + Preorder(lower, from, middle) + Preorder(upper, middle, to)
  }

  datatype Pending = Pending(index: nat, from: nat, to: nat)

  /** What a stack of nodes still to be written comes to, the last of them first. */
  ghost function Planned(pending: seq<Pending>, waiting: nat): (nodes: seq<Node>)
    requires waiting <= |pending| && forall k | 0 <= k < waiting :: pending[k].from < pending[k].to
    ensures |nodes| >= waiting
  {
    if waiting == 0 then []
    else
      var top := pending[waiting - 1];
      Preorder(top.index, top.from, top.to) + Planned(pending, waiting - 1)
  }

  /** Each node of the stack starts in the slot where the ones above it end. */
  ghost predicate Stacked(pending: seq<Pending>, waiting: nat, written: nat, slots: nat) {
    && waiting <= |pending|
    && (forall k | 0 <= k < waiting :: pending[k].from < pending[k].to)
    && (waiting > 0 ==> pending[waiting - 1].index == written)
    && (forall k | 0 < k < waiting ::
          pending[k].index + Slots(pending[k].from, pending[k].to) == pending[k - 1].index)
    && (if waiting == 0 then written == slots
        else pending[0].index + Slots(pending[0].from, pending[0].to) == slots)
  }

  lemma {:induction false} PlannedAlike(one: seq<Pending>, other: seq<Pending>, waiting: nat)
    requires waiting <= |one| && waiting <= |other|
    requires forall k | 0 <= k < waiting :: one[k] == other[k] && one[k].from < one[k].to
    ensures Planned(one, waiting) == Planned(other, waiting)
  {
    if waiting > 0 {
      PlannedAlike(one, other, waiting - 1);
    }
  }

  lemma {:induction false} StackFits(pending: seq<Pending>, waiting: nat, written: nat, slots: nat)
    requires Stacked(pending, waiting, written, slots)
    ensures |Planned(pending, waiting)| == slots - written
    ensures waiting > 0 ==> written + |Planned(pending, waiting)| == slots
  {
    if waiting > 0 {
      var top := pending[waiting - 1];
      var next := written + Slots(top.from, top.to);
      if waiting > 1 {
        assert pending[waiting - 1].index + Slots(top.from, top.to) == pending[waiting - 2].index;
      }
      StackFits(pending, waiting - 1, next, slots);
    }
  }

  /** The tree written out slot by slot from a stack of the nodes still to be written. */
  method Tree(bands: nat) returns (tree: array<Node>)
    requires bands > 0
    ensures tree.Length == 2 * bands - 1 && tree[..] == Preorder(0, 0, bands)
  {
    var slots := 2 * bands - 1;
    tree := new Node[slots](_ => Node(0, 0, None));
    var pending := seq(slots, _ => Pending(0, 0, 0));
    pending := pending[0 := Pending(0, 0, bands)];
    var waiting := 1;
    ghost var written := 0;
    ghost var whole := Preorder(0, 0, bands);
    Planted(pending, bands);
    while waiting > 0
      invariant |pending| == slots && Stacked(pending, waiting, written, slots) && written <= slots
      invariant tree[..written] + Planned(pending, waiting) == whole
      decreases slots - written
    {
      StackFits(pending, waiting, written, slots);
      ghost var was := tree[..];
      ghost var node;
      pending, waiting, node := WriteTop(tree, pending, waiting, written);
      WrittenOn(was, node, written, Planned(pending, waiting), whole);
      written := written + 1;
    }
    assert tree[..written] == tree[..];
  }

  lemma Planted(pending: seq<Pending>, bands: nat)
    requires bands > 0 && |pending| > 0 && pending[0] == Pending(0, 0, bands)
    ensures Planned(pending, 1) == Preorder(0, 0, bands) && Stacked(pending, 1, 0, 2 * bands - 1)
  {
    assert Planned(pending, 0) == [];
  }

  /** The node on top of the stack written into its slot. */
  method WriteTop(tree: array<Node>, pending: seq<Pending>, waiting: nat, ghost written: nat)
    returns (next: seq<Pending>, left: nat, ghost node: Node)
    requires 0 < waiting <= |pending| == tree.Length && Stacked(pending, waiting, written, tree.Length)
    requires |Planned(pending, waiting)| == tree.Length - written
    modifies tree
    ensures |next| == |pending| && written < tree.Length && Stacked(next, left, written + 1, tree.Length)
    ensures tree[..] == old(tree[..])[written := node]
    ensures Planned(pending, waiting) == [node] + Planned(next, left)
  {
    left := waiting - 1;
    var top := pending[left];
    var index, from, to := top.index, top.from, top.to;
    if to - from > 1 {
      var middle := Middle(from, to);
      var lower, upper := index + 1, index + 2 * (middle - from);
      tree[index] := Node(from, to, Some((lower, upper)));
      next := pending[left := Pending(upper, middle, to)][left + 1 := Pending(lower, from, middle)];
      left := left + 2;
      Halved(pending, next, left, written, tree.Length, tree[index]);
    } else {
      tree[index] := Node(from, to, None);
      next := pending;
      Alone(pending, left, written, tree.Length, tree[index]);
    }
    node := tree[index];
  }

  lemma WrittenOn(was: seq<Node>, node: Node, written: nat, planned: seq<Node>, whole: seq<Node>)
    requires written < |was| && was[..written] + ([node] + planned) == whole
    ensures was[written := node][..written + 1] + planned == whole
  {
    assert was[written := node][..written + 1] == was[..written] + [node];
  }

  /** A node with halves gives up its slot and leaves its halves in its place, the lower to
      be written first. */
  lemma Halved(
    was: seq<Pending>, pending: seq<Pending>, waiting: nat, written: nat, slots: nat, node: Node)
    requires 2 <= waiting <= |pending| == |was| == slots && Stacked(was, waiting - 1, written, slots)
    requires
      var top := was[waiting - 2];
      var middle := Middle(top.from, top.to);
      var lower, upper := top.index + 1, top.index + 2 * (middle - top.from);
      && top.to - top.from > 1 && node == Node(top.from, top.to, Some((lower, upper)))
      && pending
           == was[waiting - 2 := Pending(upper, middle, top.to)][waiting - 1 := Pending(lower, top.from, middle)]
    ensures Stacked(pending, waiting, written + 1, slots)
    ensures Planned(was, waiting - 1) == [node] + Planned(pending, waiting)
  {
    var top, lower, upper := was[waiting - 2], pending[waiting - 1], pending[waiting - 2];
    HalvedStacked(was, pending, waiting, written, slots, top, lower, upper);
    HalvedPlanned(was, pending, waiting, top, lower, upper, node);
  }

  lemma HalvedPlanned(
    was: seq<Pending>, pending: seq<Pending>, waiting: nat, top: Pending, lower: Pending, upper: Pending, node: Node)
    requires 2 <= waiting <= |pending| == |was| && pending == was[waiting - 2 := upper][waiting - 1 := lower]
    requires top == was[waiting - 2] && top.to - top.from > 1
    requires var middle := Middle(top.from, top.to);
      && lower == Pending(top.index + 1, top.from, middle)
      && upper == Pending(top.index + 2 * (middle - top.from), middle, top.to)
    requires forall k | 0 <= k < waiting - 1 :: was[k].from < was[k].to
    requires node == Node(top.from, top.to, Some((lower.index, upper.index)))
    ensures Planned(was, waiting - 1) == [node] + Planned(pending, waiting)
  {
    var below := Planned(was, waiting - 2);
    PlannedAlike(pending, was, waiting - 2);
    PairPlanned(pending, waiting, lower, upper, below);
    TopPlanned(was, waiting - 1, top, lower, upper, node, below);
    OneMoreWritten(node, Preorder(lower.index, lower.from, lower.to), Preorder(upper.index, upper.from, upper.to),
      below);
  }

  lemma PairPlanned(pending: seq<Pending>, waiting: nat, lower: Pending, upper: Pending, below: seq<Node>)
    requires 2 <= waiting <= |pending| && forall k | 0 <= k < waiting :: pending[k].from < pending[k].to
    requires lower == pending[waiting - 1] && upper == pending[waiting - 2] && Planned(pending, waiting - 2) == below
    ensures Planned(pending, waiting)
      == Preorder(lower.index, lower.from, lower.to) + (Preorder(upper.index, upper.from, upper.to) + below)
  {
    PlannedTop(pending, waiting);
    PlannedTop(pending, waiting - 1);
  }

  lemma TopPlanned(
    was: seq<Pending>, waiting: nat, top: Pending, lower: Pending, upper: Pending, node: Node, below: seq<Node>)
    requires 0 < waiting <= |was| && forall k | 0 <= k < waiting :: was[k].from < was[k].to
    requires top == was[waiting - 1] && top.to - top.from > 1 && Planned(was, waiting - 1) == below
    requires var middle := Middle(top.from, top.to);
      && lower == Pending(top.index + 1, top.from, middle)
      && upper == Pending(top.index + 2 * (middle - top.from), middle, top.to)
    requires node == Node(top.from, top.to, Some((lower.index, upper.index)))
    ensures Planned(was, waiting)
      == [node] + Preorder(lower.index, lower.from, lower.to) + Preorder(upper.index, upper.from, upper.to) + below
  {
    PlannedTop(was, waiting);
    PreorderParts(top.index, top.from, Middle(top.from, top.to), top.to);
  }

  lemma PlannedTop(pending: seq<Pending>, waiting: nat)
    requires 0 < waiting <= |pending| && forall k | 0 <= k < waiting :: pending[k].from < pending[k].to
    ensures
      var top := pending[waiting - 1];
      Planned(pending, waiting) == Preorder(top.index, top.from, top.to) + Planned(pending, waiting - 1)
  {
  }

  lemma PreorderParts(index: nat, from: nat, middle: nat, to: nat)
    requires to - from > 1 && middle == Middle(from, to)
    ensures
      var lower, upper := index + 1, index + 2 * (middle - from);
      Preorder(index, from, to)
        == [Node(from, to, Some((lower, upper)))] + Preorder(lower, from, middle) + Preorder(upper, middle, to)
  {
  }

  lemma HalvedStacked(
    was: seq<Pending>, pending: seq<Pending>, waiting: nat, written: nat, slots: nat, top: Pending, lower: Pending,
    upper: Pending)
    requires 2 <= waiting <= |pending| == |was| && Stacked(was, waiting - 1, written, slots) && top == was[waiting - 2]
    requires pending == was[waiting - 2 := upper][waiting - 1 := lower]
    requires lower.from < lower.to && upper.from < upper.to && lower.index == written + 1
    requires lower.index + Slots(lower.from, lower.to) == upper.index
    requires upper.index + Slots(upper.from, upper.to) == top.index + Slots(top.from, top.to)
    ensures Stacked(pending, waiting, written + 1, slots)
  {
    forall k | 0 < k < waiting
      ensures pending[k].index + Slots(pending[k].from, pending[k].to) == pending[k - 1].index
    {
      if k < waiting - 2 {
        assert was[k].index + Slots(was[k].from, was[k].to) == was[k - 1].index;
      }
    }
  }

  lemma Alone(was: seq<Pending>, waiting: nat, written: nat, slots: nat, node: Node)
    requires waiting < |was| && Stacked(was, waiting + 1, written, slots)
    requires was[waiting].to - was[waiting].from == 1 && node == Node(was[waiting].from, was[waiting].to, None)
    ensures Stacked(was, waiting, written + 1, slots)
    ensures Planned(was, waiting + 1) == [node] + Planned(was, waiting)
  {
    if waiting > 0 {
      assert was[waiting].index + Slots(was[waiting].from, was[waiting].to) == was[waiting - 1].index;
    }
  }

  lemma OneMoreWritten(node: Node, lower: seq<Node>, upper: seq<Node>, below: seq<Node>)
    ensures [node] + lower + upper + below == [node] + (lower + (upper + below))
  {
  }

  // ---------------------------------------------------------------- the shape of the tree

  /** A node at its slot, its halves at theirs and parting its bands between them. */
  ghost predicate Rooted(tree: seq<Node>, index: nat, from: nat, to: nat)
    requires from < to
    decreases if from < to then to - from else 0
  {
    && index + Slots(from, to) <= |tree| && tree[index].from == from && tree[index].to == to
    && if to - from == 1 then tree[index].halves == None
       else
         var middle := Middle(from, to);
         var lower, upper := index + 1, index + 2 * (middle - from);
         && tree[index].halves == Some((lower, upper))
         && Rooted(tree, lower, from, middle) && Rooted(tree, upper, middle, to)
  }

  ghost predicate Laid(tree: seq<Node>, index: nat, nodes: seq<Node>) {
    && index + |nodes| <= |tree|
    && forall k {:trigger nodes[k]} | 0 <= k < |nodes| :: tree[index + k] == nodes[k]
  }

  lemma {:induction false} PreorderRooted(tree: seq<Node>, index: nat, from: nat, to: nat)
    requires from < to && Laid(tree, index, Preorder(index, from, to))
    ensures Rooted(tree, index, from, to)
    decreases if from < to then to - from else 0
  {
    assert tree[index + 0] == Preorder(index, from, to)[0];
    if to - from > 1 {
      var middle := Middle(from, to);
      var lower, upper := index + 1, index + 2 * (middle - from);
      PreorderParts(index, from, middle, to);
      PartsLaid(tree, index, Preorder(index, from, to), [Node(from, to, Some((lower, upper)))],
        Preorder(lower, from, middle), Preorder(upper, middle, to));
      PreorderRooted(tree, lower, from, middle);
      PreorderRooted(tree, upper, middle, to);
    }
  }

  lemma PartsLaid(tree: seq<Node>, index: nat, whole: seq<Node>, root: seq<Node>, below: seq<Node>, above: seq<Node>)
    requires whole == root + below + above && Laid(tree, index, whole)
    ensures Laid(tree, index + |root|, below) && Laid(tree, index + |root| + |below|, above)
  {
    forall k | 0 <= k < |below| ensures tree[index + |root| + k] == below[k] {
      assert whole[|root| + k] == below[k];
    }
    forall k | 0 <= k < |above| ensures tree[index + |root| + |below| + k] == above[k] {
      assert whole[|root| + |below| + k] == above[k];
    }
  }

  /** Every node under another covers some of its bands and no others. */
  lemma {:induction false} Within(tree: seq<Node>, index: nat, from: nat, to: nat, j: nat)
    requires from < to && Rooted(tree, index, from, to) && index <= j < index + Slots(from, to)
    ensures from <= tree[j].from < tree[j].to <= to
    decreases if from < to then to - from else 0
  {
    if j != index {
      var middle := Middle(from, to);
      if j < index + 2 * (middle - from) {
        Within(tree, index + 1, from, middle, j);
      } else {
        Within(tree, index + 2 * (middle - from), middle, to, j);
      }
    }
  }

  // ---------------------------------------------------------------- covering the bands

  /** Nodes one after another, each starting at the band where the last one ended. */
  ghost predicate Abut(tree: seq<Node>, chosen: seq<nat>, from: nat, to: nat) {
    if chosen == [] then from == to
    else
      && chosen[0] < |tree| && tree[chosen[0]].from == from < tree[chosen[0]].to <= to
      && Abut(tree, chosen[1..], tree[chosen[0]].to, to)
  }

  ghost predicate Among(chosen: seq<nat>, first: nat, slots: nat) {
    forall k | 0 <= k < |chosen| :: first <= chosen[k] < first + slots
  }

  function CostOf(own: seq<real>, chosen: seq<nat>): real
    requires forall k | 0 <= k < |chosen| :: chosen[k] < |own|
  {
    if chosen == [] then 0.0 else own[chosen[0]] + CostOf(own, chosen[1..])
  }

  lemma {:induction false} CostJoined(own: seq<real>, one: seq<nat>, other: seq<nat>)
    requires forall k | 0 <= k < |one| :: one[k] < |own|
    requires forall k | 0 <= k < |other| :: other[k] < |own|
    ensures forall k | 0 <= k < |one + other| :: (one + other)[k] < |own|
    ensures CostOf(own, one + other) == CostOf(own, one) + CostOf(own, other)
  {
    if one == [] {
      assert one + other == other;
    } else {
      CostJoined(own, one[1..], other);
      assert (one + other)[1..] == one[1..] + other;
    }
  }

  lemma {:induction false} AbutJoined(tree: seq<Node>, one: seq<nat>, other: seq<nat>, from: nat, middle: nat, to: nat)
    requires Abut(tree, one, from, middle) && Abut(tree, other, middle, to) && middle <= to
    ensures Abut(tree, one + other, from, to)
  {
    if one == [] {
      assert one + other == other;
    } else {
      AbutJoined(tree, one[1..], other, tree[one[0]].to, middle, to);
      assert (one + other)[1..] == one[1..] + other;
    }
  }

  /** What a node and all under it cost at least: its own cost, or what its halves do. */
  ghost function Cheapest(tree: seq<Node>, own: seq<real>, index: nat, from: nat, to: nat): (cheapest: real)
    requires from < to && Rooted(tree, index, from, to) && |own| == |tree|
    decreases if from < to then to - from else 0
  {
    if to - from == 1 then own[index]
    else
      var middle := Middle(from, to);
      Min(own[index],
        Cheapest(tree, own, index + 1, from, middle) + Cheapest(tree, own, index + 2 * (middle - from), middle, to))
  }

  /** Some nodes that abut cost just that. */
  lemma {:induction false} CheapestFound(tree: seq<Node>, own: seq<real>, index: nat, from: nat, to: nat)
    returns (chosen: seq<nat>)
    requires from < to && Rooted(tree, index, from, to) && |own| == |tree|
    ensures Abut(tree, chosen, from, to) && Among(chosen, index, Slots(from, to))
    ensures CostOf(own, chosen) == Cheapest(tree, own, index, from, to)
    decreases if from < to then to - from else 0
  {
    chosen := [index];
    assert chosen[1..] == [];
    if to - from > 1 {
      var middle := Middle(from, to);
      var lower := CheapestFound(tree, own, index + 1, from, middle);
      var upper := CheapestFound(tree, own, index + 2 * (middle - from), middle, to);
      if CostOf(own, lower) + CostOf(own, upper) <= own[index] {
        AbutJoined(tree, lower, upper, from, middle, to);
        CostJoined(own, lower, upper);
        chosen := lower + upper;
      }
    }
  }

  /** Nodes that abut over all a node's bands either are that node alone or part at its middle. */
  lemma {:induction false} PartsAtTheMiddle(
    tree: seq<Node>, chosen: seq<nat>, index: nat, from: nat, middle: nat, to: nat, start: nat) returns (k: nat)
    requires from < middle < to && Among(chosen, index + 1, Slots(from, to) - 1) && from <= start <= middle
    requires Rooted(tree, index + 1, from, middle) && Rooted(tree, index + 2 * (middle - from), middle, to)
    requires Abut(tree, chosen, start, to)
    ensures k <= |chosen| && Abut(tree, chosen[..k], start, middle) && Abut(tree, chosen[k..], middle, to)
    ensures Among(chosen[..k], index + 1, Slots(from, middle))
    ensures Among(chosen[k..], index + 2 * (middle - from), Slots(middle, to))
  {
    var upper := index + 2 * (middle - from);
    if start == middle {
      k := 0;
      AllAbove(tree, chosen, index, from, middle, to, start);
      assert chosen[..0] == [] && chosen[0..] == chosen;
    } else {
      var first := chosen[0];
      if first >= upper {
        Within(tree, upper, middle, to, first);
      }
      Within(tree, index + 1, from, middle, first);
      var rest := chosen[1..];
      var more := PartsAtTheMiddle(tree, rest, index, from, middle, to, tree[first].to);
      k := more + 1;
      assert chosen[..k][1..] == rest[..more] && chosen[k..] == rest[more..];
    }
  }

  lemma {:induction false} AllAbove(
    tree: seq<Node>, chosen: seq<nat>, index: nat, from: nat, middle: nat, to: nat, start: nat)
    requires from < middle < to && Among(chosen, index + 1, Slots(from, to) - 1) && middle <= start
    requires Rooted(tree, index + 1, from, middle) && Rooted(tree, index + 2 * (middle - from), middle, to)
    requires Abut(tree, chosen, start, to)
    ensures Among(chosen, index + 2 * (middle - from), Slots(middle, to))
  {
    if chosen != [] {
      if chosen[0] < index + 2 * (middle - from) {
        Within(tree, index + 1, from, middle, chosen[0]);
      }
      AllAbove(tree, chosen[1..], index, from, middle, to, tree[chosen[0]].to);
    }
  }

  /** No nodes that abut cost less. */
  lemma {:induction false} NoneCheaper(
    tree: seq<Node>, own: seq<real>, index: nat, from: nat, to: nat, chosen: seq<nat>)
    requires from < to && Rooted(tree, index, from, to) && |own| == |tree|
    requires Abut(tree, chosen, from, to) && Among(chosen, index, Slots(from, to))
    ensures Cheapest(tree, own, index, from, to) <= CostOf(own, chosen)
    decreases if from < to then to - from else 0
  {
    if k :| 0 <= k < |chosen| && chosen[k] == index {
      AloneIfWhole(tree, own, index, from, to, chosen, k);
    } else {
      var middle := Middle(from, to);
      assert chosen[0] != index;
      assert Among(chosen, index + 1, Slots(from, to) - 1);
      var k := PartsAtTheMiddle(tree, chosen, index, from, middle, to, from);
      NoneCheaper(tree, own, index + 1, from, middle, chosen[..k]);
      NoneCheaper(tree, own, index + 2 * (middle - from), middle, to, chosen[k..]);
      CostJoined(own, chosen[..k], chosen[k..]);
      assert chosen[..k] + chosen[k..] == chosen;
    }
  }

  lemma AloneIfWhole(tree: seq<Node>, own: seq<real>, index: nat, from: nat, to: nat, chosen: seq<nat>, k: nat)
    requires from < to && Rooted(tree, index, from, to) && |own| == |tree|
    requires Abut(tree, chosen, from, to) && Among(chosen, index, Slots(from, to))
    requires k < |chosen| && chosen[k] == index
    ensures CostOf(own, chosen) == own[index]
  {
    Reaches(tree, chosen, from, to, k);
    assert chosen[1..] == [];
  }

  /** A node that starts at the first band is the first of those that abut. */
  lemma {:induction false} Reaches(tree: seq<Node>, chosen: seq<nat>, from: nat, to: nat, k: nat)
    requires Abut(tree, chosen, from, to) && k < |chosen|
    ensures chosen[k] < |tree| && tree[chosen[k]].from >= from
    ensures k > 0 ==> tree[chosen[k]].from > from
  {
    if k > 0 {
      Reaches(tree, chosen[1..], tree[chosen[0]].to, to, k - 1);
    }
  }

  /** The tree over all the bands, as `Tree` writes it out. */
  lemma TreeRooted(tree: seq<Node>, bands: nat)
    requires bands > 0 && tree == Preorder(0, 0, bands)
    ensures Rooted(tree, 0, 0, bands) && |tree| == Slots(0, bands)
  {
    PreorderRooted(tree, 0, 0, bands);
  }

  /** What is at least as high costs at least as much. */
  lemma {:induction false} CheapestRises(
    tree: seq<Node>, own: seq<real>, higher: seq<real>, index: nat, from: nat, to: nat)
    requires from < to && Rooted(tree, index, from, to) && |own| == |higher| == |tree|
    requires forall k | 0 <= k < |tree| :: own[k] <= higher[k]
    ensures Cheapest(tree, own, index, from, to) <= Cheapest(tree, higher, index, from, to)
    decreases if from < to then to - from else 0
  {
    if to - from > 1 {
      var middle := Middle(from, to);
      CheapestRises(tree, own, higher, index + 1, from, middle);
      CheapestRises(tree, own, higher, index + 2 * (middle - from), middle, to);
    }
  }

  // ---------------------------------------------------------------- the cheapest of them

  function Owns(reach: seq<real>, heights: seq<real>): (own: seq<real>)
    requires |reach| == |heights|
    ensures |own| == |reach| && forall k | 0 <= k < |reach| :: own[k] == reach[k] * heights[k]
  {
    seq(|reach|, k requires 0 <= k < |reach| => reach[k] * heights[k])
  }

  /** From the last slot to the first, so that a node's halves come before it. */
  method CheapestOver(tree: seq<Node>, reach: seq<real>, heights: seq<real>, bands: nat) returns (cheapest: real)
    requires bands > 0 && Rooted(tree, 0, 0, bands) && |tree| == |reach| == |heights| == Slots(0, bands)
    ensures cheapest == Cheapest(tree, Owns(reach, heights), 0, 0, bands)
  {
    ghost var own := Owns(reach, heights);
    var costs := new real[|tree|](_ => 0.0);
    NoneCosted(tree, own, costs[..], 0, 0, bands);
    for index := |tree| downto 0
      invariant CostsFrom(tree, own, costs[..], index, 0, 0, bands)
    {
      ghost var before := costs[..];
      var cost := reach[index] * heights[index];
      CostIsCheapest(tree, own, before, index, 0, 0, bands);
      if tree[index].halves.Some? {
        var (lower, upper) := tree[index].halves.value;
        cost := Min(cost, costs[lower] + costs[upper]);
      }
      costs[index] := cost;
      CostsMore(tree, own, before, costs[..], index, 0, 0, bands);
    }
    cheapest := costs[0];
  }

  /** Every node from a slot on costs what it should. */
  ghost predicate CostsFrom(
    tree: seq<Node>, own: seq<real>, costs: seq<real>, first: nat, index: nat, from: nat, to: nat)
    requires from < to && Rooted(tree, index, from, to) && |own| == |tree|
    decreases if from < to then to - from else 0
  {
    && |costs| == |tree|
    && (first <= index ==> costs[index] == Cheapest(tree, own, index, from, to))
    && (to - from > 1 ==>
          var middle := Middle(from, to);
          && CostsFrom(tree, own, costs, first, index + 1, from, middle)
          && CostsFrom(tree, own, costs, first, index + 2 * (middle - from), middle, to))
  }

  lemma {:induction false} NoneCosted(tree: seq<Node>, own: seq<real>, costs: seq<real>, index: nat, from: nat, to: nat)
    requires from < to && Rooted(tree, index, from, to) && |own| == |costs| == |tree|
    ensures CostsFrom(tree, own, costs, |tree|, index, from, to)
    decreases if from < to then to - from else 0
  {
    if to - from > 1 {
      var middle := Middle(from, to);
      NoneCosted(tree, own, costs, index + 1, from, middle);
      NoneCosted(tree, own, costs, index + 2 * (middle - from), middle, to);
    }
  }

  /** Which node a slot holds, and that its halves are costed once all after it are. */
  lemma {:induction false} CostIsCheapest(
    tree: seq<Node>, own: seq<real>, costs: seq<real>, slot: nat, index: nat, from: nat, to: nat)
    requires from < to && Rooted(tree, index, from, to) && |own| == |tree|
    requires index <= slot < index + Slots(from, to) && CostsFrom(tree, own, costs, slot + 1, index, from, to)
    ensures tree[slot].from < tree[slot].to && Rooted(tree, slot, tree[slot].from, tree[slot].to)
    ensures tree[slot].halves.Some? ==>
      && tree[slot].halves.value.0 < |tree| && tree[slot].halves.value.1 < |tree|
      && Cheapest(tree, own, slot, tree[slot].from, tree[slot].to)
           == Min(own[slot], costs[tree[slot].halves.value.0] + costs[tree[slot].halves.value.1])
    ensures tree[slot].halves.None? ==> Cheapest(tree, own, slot, tree[slot].from, tree[slot].to) == own[slot]
    decreases if from < to then to - from else 0
  {
    if slot == index {
      if to - from > 1 {
        var middle := Middle(from, to);
        assert CostsFrom(tree, own, costs, slot + 1, index + 1, from, middle);
        assert CostsFrom(tree, own, costs, slot + 1, index + 2 * (middle - from), middle, to);
      }
    } else {
      var middle := Middle(from, to);
      if slot < index + 2 * (middle - from) {
        CostIsCheapest(tree, own, costs, slot, index + 1, from, middle);
      } else {
        CostIsCheapest(tree, own, costs, slot, index + 2 * (middle - from), middle, to);
      }
    }
  }

  lemma {:induction false} CostsMore(
    tree: seq<Node>, own: seq<real>, before: seq<real>, after: seq<real>, slot: nat, index: nat, from: nat, to: nat)
    requires from < to && Rooted(tree, index, from, to) && |own| == |tree|
    requires CostsFrom(tree, own, before, slot + 1, index, from, to)
    requires slot < |tree| && |after| == |before| && forall k | 0 <= k < |tree| && k != slot :: after[k] == before[k]
    requires tree[slot].from < tree[slot].to && Rooted(tree, slot, tree[slot].from, tree[slot].to)
    requires after[slot] == Cheapest(tree, own, slot, tree[slot].from, tree[slot].to)
    ensures CostsFrom(tree, own, after, slot, index, from, to)
    decreases if from < to then to - from else 0
  {
    if to - from > 1 {
      var middle := Middle(from, to);
      CostsMore(tree, own, before, after, slot, index + 1, from, middle);
      CostsMore(tree, own, before, after, slot, index + 2 * (middle - from), middle, to);
    }
  }

  /** The cheapest is the least any nodes that abut over all the bands cost. */
  lemma LeastOfAll(tree: seq<Node>, reach: seq<real>, heights: seq<real>, bands: nat)
    requires bands > 0 && Rooted(tree, 0, 0, bands) && |tree| == |reach| == |heights| == Slots(0, bands)
    ensures forall chosen | Abut(tree, chosen, 0, bands) && Among(chosen, 0, |tree|) ::
      Cheapest(tree, Owns(reach, heights), 0, 0, bands) <= CostOf(Owns(reach, heights), chosen)
    ensures exists chosen ::
      && Abut(tree, chosen, 0, bands) && Among(chosen, 0, |tree|)
      && CostOf(Owns(reach, heights), chosen) == Cheapest(tree, Owns(reach, heights), 0, 0, bands)
  {
    var own := Owns(reach, heights);
    forall chosen | Abut(tree, chosen, 0, bands) && Among(chosen, 0, |tree|)
      ensures Cheapest(tree, own, 0, 0, bands) <= CostOf(own, chosen)
    {
      NoneCheaper(tree, own, 0, 0, bands, chosen);
    }
    var chosen := CheapestFound(tree, own, 0, 0, bands);
  }

  /** Higher nodes are no cheaper, where no reach is negative. */
  lemma CheapestMonotone(tree: seq<Node>, reach: seq<real>, heights: seq<real>, higher: seq<real>, bands: nat)
    requires bands > 0 && Rooted(tree, 0, 0, bands) && |tree| == |reach| == |heights| == |higher| == Slots(0, bands)
    requires forall k | 0 <= k < |tree| :: reach[k] >= 0.0 && heights[k] <= higher[k]
    ensures Cheapest(tree, Owns(reach, heights), 0, 0, bands) <= Cheapest(tree, Owns(reach, higher), 0, 0, bands)
  {
    OwnsRise(reach, heights, higher);
    CheapestRises(tree, Owns(reach, heights), Owns(reach, higher), 0, 0, bands);
  }

  lemma OwnsRise(reach: seq<real>, heights: seq<real>, higher: seq<real>)
    requires |reach| == |heights| == |higher|
    requires forall k | 0 <= k < |reach| :: reach[k] >= 0.0 && heights[k] <= higher[k]
    ensures forall k | 0 <= k < |reach| :: Owns(reach, heights)[k] <= Owns(reach, higher)[k]
  {
    forall k | 0 <= k < |reach| ensures Owns(reach, heights)[k] <= Owns(reach, higher)[k] {
      Weighed(reach[k], heights[k], higher[k]);
    }
  }
}
