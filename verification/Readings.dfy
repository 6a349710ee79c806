/** How loud each node of a tree of bands gets, frame by frame, from the levels at the edges of
    its bands: at each frame, and midway between the two frames before it. */
module Readings {
  import opened Vectors
  import opened Tiling
  import opened Filtering

  const HISTORY: nat := 3
  const LAST_MIDPOINT_FRAMES: nat := 2

  /** The level under each edge: nothing under the first, all that is heard under the last. */
  type Row = seq<real>

  /** A node of the tree holds the bands from one edge to another. */
  type Tree = seq<(nat, nat)>

  ghost predicate Level(rows: seq<Row>, levels: nat) {
    forall f | 0 <= f < |rows| :: |rows[f]| == levels
  }

  ghost predicate Rooted(tree: Tree, levels: nat) {
    forall n | 0 <= n < |tree| :: tree[n].0 < levels && tree[n].1 < levels
  }

  function RowOf(plane: Plane, heard: real): Row {
    [0.0] + plane + [heard]
  }

  function RowsOf(planes: seq<Plane>, heard: seq<real>): (rows: seq<Row>)
    requires |planes| == |heard|
    ensures |rows| == |planes| && forall f | 0 <= f < |planes| :: rows[f] == RowOf(planes[f], heard[f])
  {
    seq(|planes|, f requires 0 <= f < |planes| => RowOf(planes[f], heard[f]))
  }

  function Silent(levels: nat): (row: Row)
    ensures |row| == levels && forall l | 0 <= l < levels :: row[l] == 0.0
  {
    seq(levels, _ => 0.0)
  }

  function Silents(frames: nat, levels: nat): (rows: seq<Row>)
    ensures |rows| == frames && Level(rows, levels) && forall f | 0 <= f < frames :: rows[f] == Silent(levels)
  {
    seq(frames, _ => Silent(levels))
  }

  /** Midway between two frames, by the frames beside them as well. */
  function Midway(oldest: real, older: real, newer: real, level: real): real {
    (9.0 * (older + newer) - oldest - level) / 16.0
  }

  /** How far apart a node's two edges are at a frame, or midway between the two before. */
  function NodeHeight(tree: Tree, oldest: Row, older: Row, newer: Row, row: Row, levels: nat, node: nat): (height: real)
    requires Rooted(tree, levels) && |oldest| == |older| == |newer| == |row| == levels && node < |tree|
    ensures height >= 0.0
  {
    if node == 0 then 0.0
    else
      var (from, to) := tree[node];
      Max(Abs(row[to] - row[from]),
        Abs(Midway(oldest[to], older[to], newer[to], row[to])
            - Midway(oldest[from], older[from], newer[from], row[from])))
  }

  function HeightsOf(tree: Tree, oldest: Row, older: Row, newer: Row, row: Row, levels: nat): (heights: Heights)
    requires Rooted(tree, levels) && |oldest| == |older| == |newer| == |row| == levels
    ensures |heights| == |tree|
    ensures forall n | 0 <= n < |tree| ::
      heights[n] == NodeHeight(tree, oldest, older, newer, row, levels, n)
  {
    seq(|tree|, n requires 0 <= n < |tree| => NodeHeight(tree, oldest, older, newer, row, levels, n))
  }

  /** The row of a frame of the whole, silent before the first. */
  function RowAt(rows: seq<Row>, levels: nat, f: int): (row: Row)
    requires Level(rows, levels) && f < |rows|
    ensures |row| == levels
  {
    if f < 0 then Silent(levels) else rows[f]
  }

  /** What every frame of the whole reads as. */
  ghost function Read(tree: Tree, rows: seq<Row>, levels: nat): (heights: seq<Heights>)
    requires Rooted(tree, levels) && Level(rows, levels)
    ensures |heights| == |rows| && Alike(heights, |tree|)
    ensures forall f | 0 <= f < |rows| :: heights[f] == ReadAt(tree, rows, levels, f)
  {
    seq(|rows|, f requires 0 <= f < |rows| => ReadAt(tree, rows, levels, f))
  }

  ghost function ReadAt(tree: Tree, rows: seq<Row>, levels: nat, f: nat): (heights: Heights)
    requires Rooted(tree, levels) && Level(rows, levels) && f < |rows|
    ensures |heights| == |tree|
  {
    HeightsOf(tree, RowAt(rows, levels, f - 3), RowAt(rows, levels, f - 2), RowAt(rows, levels, f - 1), rows[f], levels)
  }

  /** The last rows of the whole, as the reading keeps them. */
  ghost function Kept(rows: seq<Row>, levels: nat): (kept: seq<Row>)
    requires Level(rows, levels)
    ensures |kept| == HISTORY && Level(kept, levels)
    ensures forall k {:trigger kept[k]} | 0 <= k < HISTORY :: kept[k] == RowAt(rows, levels, |rows| - HISTORY + k)
  {
    [RowAt(rows, levels, |rows| - 3), RowAt(rows, levels, |rows| - 2), RowAt(rows, levels, |rows| - 1)]
  }

  /** What a frame of a window reads as from the rows before it. */
  ghost function HeightsIn(tree: Tree, window: seq<Row>, levels: nat, j: nat): (heights: Heights)
    requires Rooted(tree, levels) && Level(window, levels) && j + HISTORY < |window|
    ensures |heights| == |tree|
  {
    HeightsOf(tree, window[j], window[j + 1], window[j + 2], window[j + 3], levels)
  }

  /** What a run of frames reads as from the rows kept and its own. */
  ghost function ReadFrom(tree: Tree, window: seq<Row>, levels: nat): (heights: seq<Heights>)
    requires Rooted(tree, levels) && Level(window, levels) && |window| >= HISTORY
    ensures |heights| == |window| - HISTORY && Alike(heights, |tree|)
    ensures forall j | 0 <= j < |window| - HISTORY :: heights[j] == HeightsIn(tree, window, levels, j)
  {
    seq(|window| - HISTORY, j requires 0 <= j < |window| - HISTORY => HeightsIn(tree, window, levels, j))
  }

  function LastOf(window: seq<Row>): (last: seq<Row>)
    requires |window| >= HISTORY
  {
    window[|window| - HISTORY..]
  }

  /** Reading a run after the rest is reading it within the whole. */
  lemma ReadOn(tree: Tree, rows: seq<Row>, more: seq<Row>, levels: nat)
    requires Rooted(tree, levels) && Level(rows, levels) && Level(more, levels)
    ensures Level(rows + more, levels) && Level(Kept(rows, levels) + more, levels)
    ensures Read(tree, rows + more, levels)
      == Read(tree, rows, levels) + ReadFrom(tree, Kept(rows, levels) + more, levels)
    ensures Kept(rows + more, levels) == LastOf(Kept(rows, levels) + more)
  {
    var all, window := rows + more, Kept(rows, levels) + more;
    Joined(rows, more, levels);
    forall f | 0 <= f < |all|
      ensures ReadAt(tree, all, levels, f)
        == if f < |rows| then ReadAt(tree, rows, levels, f) else HeightsIn(tree, window, levels, f - |rows|)
    {
      ReadOnAt(tree, rows, more, levels, f);
    }
    assert Read(tree, all, levels) == Read(tree, rows, levels) + ReadFrom(tree, window, levels);
    assert Kept(all, levels) == LastOf(window);
  }

  lemma Joined(rows: seq<Row>, more: seq<Row>, levels: nat)
    requires Level(rows, levels) && Level(more, levels)
    ensures Level(rows + more, levels) && Level(Kept(rows, levels) + more, levels)
    ensures forall k {:trigger (Kept(rows, levels) + more)[k]} | 0 <= k < HISTORY + |more| ::
      (Kept(rows, levels) + more)[k] == RowAt(rows + more, levels, |rows| - HISTORY + k)
  {
    forall f | 0 <= f < |rows + more| ensures |(rows + more)[f]| == levels {
      if f >= |rows| {
        assert (rows + more)[f] == more[f - |rows|];
      }
    }
    var window := Kept(rows, levels) + more;
    forall k | 0 <= k < HISTORY + |more| ensures window[k] == RowAt(rows + more, levels, |rows| - HISTORY + k) {
      if k >= HISTORY {
        assert window[k] == more[k - HISTORY];
      }
    }
  }

  lemma ReadOnAt(tree: Tree, rows: seq<Row>, more: seq<Row>, levels: nat, f: nat)
    requires Rooted(tree, levels) && Level(rows, levels) && Level(more, levels) && f < |rows| + |more|
    requires Level(rows + more, levels) && Level(Kept(rows, levels) + more, levels)
    ensures ReadAt(tree, rows + more, levels, f) == if f < |rows| then ReadAt(tree, rows, levels, f)
      else HeightsIn(tree, Kept(rows, levels) + more, levels, f - |rows|)
  {
    if f >= |rows| {
      Joined(rows, more, levels);
      var window, j := Kept(rows, levels) + more, f - |rows|;
      assert window[j] == RowAt(rows + more, levels, f - 3);
      assert window[j + 1] == RowAt(rows + more, levels, f - 2);
      assert window[j + 2] == RowAt(rows + more, levels, f - 1);
      assert window[j + 3] == RowAt(rows + more, levels, f);
    }
  }

  class Reading {
    const tree: Tree
    const levels: nat
    var window: seq<Row>

    ghost predicate Valid()
      reads this
    {
      Rooted(tree, levels) && Level(window, levels) && |window| >= HISTORY && 2 <= levels
    }

    constructor Silent(tree: Tree, levels: nat)
      requires Rooted(tree, levels) && 2 <= levels
      ensures Valid() && this.tree == tree && this.levels == levels
      ensures window == Kept([], levels)
    {
      this.tree := tree;
      this.levels := levels;
      this.window := Silents(HISTORY, levels);
    }

    method TakeIn(planes: seq<Plane>, heard: seq<real>)
      requires Valid() && |planes| == |heard| && forall f | 0 <= f < |planes| :: |planes[f]| == levels - 2
      modifies this`window
      ensures Valid() && window == old(window[..HISTORY]) + RowsOf(planes, heard)
    {
      window := window[..HISTORY] + RowsOf(planes, heard);
    }

    method TakeInSilence(frames: nat)
      requires Valid()
      modifies this`window
      ensures Valid() && window == old(window[..HISTORY]) + Silents(frames, levels)
    {
      window := window[..HISTORY] + Silents(frames, levels);
    }

    /** Every node's height made the loudest of what it was and of every frame taken in; the
        last rows are kept for the frames to come. */
    method ReadInto(height: Heights) returns (louder: Heights)
      requires Valid() && |height| == |tree| && forall n | 0 <= n < |tree| :: height[n] >= 0.0
      modifies this`window
      ensures Valid() && window == LastOf(old(window))
      ensures louder == LoudestOver(height, ReadFrom(tree, old(window), levels), old(|window|) - HISTORY)
    {
      louder := LouderEach(tree, levels, window, height);
      window := LastOf(window);
    }
  }

  method LouderEach(tree: Tree, levels: nat, window: seq<Row>, height: Heights) returns (louder: Heights)
    requires Rooted(tree, levels) && Level(window, levels) && |window| >= HISTORY
    requires |height| == |tree| && forall n | 0 <= n < |tree| :: height[n] >= 0.0
    ensures louder == LoudestOver(height, ReadFrom(tree, window, levels), |window| - HISTORY)
  {
    ghost var read := ReadFrom(tree, window, levels);
    ghost var over := LoudestOver(height, read, |window| - HISTORY);
    louder := [];
    for node := 0 to |tree|
      invariant louder == over[..node]
    {
      var loudest := LoudestApart(tree, levels, window, node, height[node], height, read);
      assert loudest == over[node];
      louder := louder + [loudest];
    }
  }

  method LoudestApart(
    tree: Tree, levels: nat, window: seq<Row>, node: nat, start: real, ghost height: Heights, ghost read: seq<Heights>)
    returns (loudest: real)
    requires Rooted(tree, levels) && Level(window, levels) && |window| >= HISTORY && node < |tree| == |height|
    requires start == height[node] >= 0.0 && read == ReadFrom(tree, window, levels)
    ensures loudest == LoudestOver(height, read, |window| - HISTORY)[node] >= 0.0
  {
    loudest := start;
    var frames := |window| - HISTORY;
    if node == 0 {
      UnreadStays(height, read, frames);
      return;
    }
    for j := 0 to frames
      invariant loudest == LoudestOver(height, read, j)[node] >= 0.0
    {
      var apart := NodeHeight(tree, window[j], window[j + 1], window[j + 2], window[j + 3], levels, node);
      assert read[j] == HeightsIn(tree, window, levels, j);
      OneMoreOver(height, read, j, node);
      loudest := Max(loudest, apart);
    }
  }

  lemma OneMoreOver(height: Heights, read: seq<Heights>, j: nat, node: nat)
    requires Alike(read, |height|) && j < |read| && node < |height|
    ensures LoudestOver(height, read, j + 1)[node] == Max(LoudestOver(height, read, j)[node], read[j][node])
  {
  }

  lemma {:induction false} UnreadStays(height: Heights, read: seq<Heights>, upto: nat)
    requires |height| > 0 && Alike(read, |height|) && upto <= |read| && height[0] >= 0.0
    requires forall j | 0 <= j < |read| :: read[j][0] == 0.0
    ensures LoudestOver(height, read, upto)[0] == height[0]
  {
    if upto > 0 {
      UnreadStays(height, read, upto - 1);
    }
  }
}
