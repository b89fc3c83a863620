/** One round of the loops of `insert` and `remove`: what the climb finds at a hole, and
    what a rebalance does to occupancy and to the path of ancestors. */
module BPlusSteps {
  import opened Basics
  import opened TreeKeys
  import opened Sequences
  import opened SortedPairs
  import opened BPlusShape
  import opened BPlusRead
  import opened BPlusRebalance
  import opened BPlusSizes

  // ----- the climb of an insert -----

  // A hole: the left half has a high key, and the right half follows it.
  lemma HoleHalves(t: Tree, l: nat, j: nat)
    requires ShapeOK(t, HoleAt(l, j))
    ensures l < |t.chain| && j + 1 < |t.chain[l]|
    ensures MemberOK(t, l, t.chain[l][j]) && MemberOK(t, l, t.chain[l][j + 1]) && LevelOK(t, l)
    ensures t.nodes[t.chain[l][j]].high.Some? && t.nodes[t.chain[l][j]].right == Some(t.chain[l][j + 1])
    ensures t.chain[l][j] != t.chain[l][j + 1]
  {
    hide UpOK, HintsOK, TopOK, LeavesOK;
    assert LevelOK(t, l) && ThreadOK(t.nodes, t.chain[l], j);
  }

  // A split node without a hint is the root.
  lemma NoHintIsRoot(t: Tree, l: nat, j: nat)
    requires ShapeOK(t, HoleAt(l, j)) && l < |t.chain| && j + 1 < |t.chain[l]| && t.chain[l][j] < |t.nodes|
    requires t.nodes[t.chain[l][j]].hint.None?
    ensures l == Top(t) && j == 0 && t.chain[l][j] == t.root
  {
    hide LevelOK, UpOK, HintsOK, LeavesOK;
    if l + 1 < |t.chain| {
      var p, ci := HoleParent(t, l, j);
      assert false;
    }
  }

  // A split node below the top is held by the node its hint names, where the splice can
  // go: no hop to the right is needed.
  lemma HoleParent(t: Tree, l: nat, j: nat) returns (p: nat, ci: nat)
    requires ShapeOK(t, HoleAt(l, j)) && l + 1 < |t.chain|
    ensures SpliceReady(t, l, j, p, ci)
    ensures t.nodes[t.chain[l][j]].hint == Some(t.chain[l + 1][p])
    ensures ci == IndexOf(t.nodes[t.chain[l + 1][p]].children, t.chain[l][j])
  {
    hide Flatten, TopOK, LeavesOK;
    HoleHalves(t, l, j);
    assert LevelOK(t, l + 1) && UpOK(t, l, HoleAt(l, j)) && HintsOK(t, l + 1);
    p, ci := HoleSlot(t, l, j);
    assert MemberOK(t, l + 1, t.chain[l + 1][p]) && HintOK(t.nodes, t.chain[l + 1][p]);
    ChildrenDistinct(t, l, HoleAt(l, j), p);
  }

  lemma HoleSlot(t: Tree, l: nat, j: nat) returns (p: nat, ci: nat)
    requires l + 1 < |t.chain| && j + 1 < |t.chain[l]| && LevelOK(t, l + 1) && UpOK(t, l, HoleAt(l, j))
    ensures p < |t.chain[l + 1]| && t.chain[l + 1][p] < |t.nodes|
    ensures ci < |t.nodes[t.chain[l + 1][p]].children|
    ensures t.nodes[t.chain[l + 1][p]].children[ci] == t.chain[l][j]
  {
    var rows := KidRows(t.nodes, t.chain[l + 1]);
    var e := Expected(t, l, HoleAt(l, j));
    assert e[j].0 == t.chain[l][j];
    p, ci := Locate(rows, j);
    assert MemberOK(t, l + 1, t.chain[l + 1][p]);
    FlattenIndex(rows, p, ci);
  }

  // ----- the path of a remove -----

  // Two trees in which the ancestors of place j of level l are the same nodes with the
  // same children.
  lemma {:induction false} PathKept(t: Tree, t': Tree, path: seq<NodeId>, pos: seq<nat>, l: nat, j: nat)
    requires PathOK(t, path, pos, l, j) && |t'.chain| == |t.chain|
    requires forall m :: l <= m < |t.chain| ==> t'.chain[m] == t.chain[m]
    requires forall m :: l < m < |t.chain| ==> SameChildren(t, t', m)
    ensures PathOK(t', path, pos, l, j)
  {
    if path != [] {
      assert SameChildren(t, t', l + 1);
      PathKept(t, t', path[..|path| - 1], pos[..|pos| - 1], l + 1, pos[|pos| - 1]);
    }
  }

  ghost predicate SameChildren(t: Tree, t': Tree, l: nat)
    requires l < |t.chain|
  {
    forall i :: 0 <= i < |t.chain[l]| ==>
      && t.chain[l][i] < |t.nodes| && t.chain[l][i] < |t'.nodes|
      && t'.nodes[t.chain[l][i]].children == t.nodes[t.chain[l][i]].children
  }

  // The ancestors of the parent are not touched by a change below it.
  lemma PairPath(t: Tree, t': Tree, l: nat, j: nat, p: nat, ci: nat, ids: seq<NodeId>, path: seq<NodeId>, pos: seq<nat>)
    requires ShapeOK(t, NoHole) && PairChange(t, t', l, j, p, ci, ids)
    requires PathOK(t, path, pos, l + 1, p)
    ensures PathOK(t', path, pos, l + 1, p)
  {
    hide UpOK, HintsOK, TopOK, LeavesOK, PathOK;
    forall m | l + 1 < m < |t.chain| ensures SameChildren(t, t', m) {
      assert LevelOK(t, m);
      PairAbove(t, t', l, j, p, ci, ids, m);
    }
    PathKept(t, t', path, pos, l + 1, p);
  }

  lemma PairAbove(t: Tree, t': Tree, l: nat, j: nat, p: nat, ci: nat, ids: seq<NodeId>, m: nat)
    requires PairChange(t, t', l, j, p, ci, ids) && l + 1 < m < |t.chain| && LevelOK(t, m)
    ensures SameChildren(t, t', m)
  {
    PairLevels(t, t', l, j, p, ci, ids, m);
  }

  // ----- occupancy after a rebalance -----

  lemma PathNode(t: Tree, path: seq<NodeId>, pos: seq<nat>, l: nat, j: nat)
    requires ShapeOK(t, NoHole) && PathOK(t, path, pos, l, j)
    ensures LevelOK(t, l) && MemberOK(t, l, t.chain[l][j])
    ensures path == [] <==> l == Top(t)
    ensures path == [] ==> t.chain[l] == [t.root] && t.chain[l][j] == t.root && Sole(t, t.chain[l][j])
    ensures path != [] ==> !Sole(t, t.chain[l][j])
  {
    hide UpOK, HintsOK, LeavesOK;
    assert LevelOK(t, l) && LevelOK(t, Top(t)) && MemberOK(t, l, t.chain[l][j]);
    PathLevel(t, path, pos, l, j);
    if path != [] { NotSole(t, l, j); }
  }

  lemma PathLevel(t: Tree, path: seq<NodeId>, pos: seq<nat>, l: nat, j: nat)
    requires PathOK(t, path, pos, l, j)
    ensures path == [] <==> l == Top(t)
  {
  }

  // A parent that is not too empty has a second child.
  lemma HasSibling(t: Tree, capacity: nat, l: nat, p: nat, x: NodeId)
    requires capacity >= 2 && SizesOK(t, capacity, None, Some(x))
    requires l + 1 < |t.chain| && p < |t.chain[l + 1]| && MemberOK(t, l + 1, t.chain[l + 1][p]) &&
      t.chain[l + 1][p] != x
    ensures |t.nodes[t.chain[l + 1][p]].children| >= 2
  {
    Sized(t, capacity, None, Some(x), l + 1, p);
  }

  lemma BorrowRightCounts(nodes: seq<Node>, p: NodeId, ci: nat)
    requires PairIn(nodes, p, ci) && |nodes[nodes[p].children[ci + 1]].keys| > 0
    requires p != nodes[p].children[ci] && p != nodes[p].children[ci + 1]
    requires nodes[p].children[ci] != nodes[p].children[ci + 1]
    ensures var u, r := nodes[p].children[ci], nodes[p].children[ci + 1]; var ns := BorrowRight(nodes, p, ci);
      && |ns| == |nodes| && |ns[u].keys| == |nodes[u].keys| + 1 && |ns[r].keys| == |nodes[r].keys| - 1
      && |ns[p].keys| == |nodes[p].keys|
  {
  }

  lemma BorrowLeftCounts(nodes: seq<Node>, p: NodeId, ci: nat)
    requires PairIn(nodes, p, ci)
    requires |nodes[nodes[p].children[ci]].keys| > (if nodes[nodes[p].children[ci]].leaf then 1 else 0)
    requires p != nodes[p].children[ci] && p != nodes[p].children[ci + 1]
    requires nodes[p].children[ci] != nodes[p].children[ci + 1]
    ensures var left, u := nodes[p].children[ci], nodes[p].children[ci + 1]; var ns := BorrowLeft(nodes, p, ci);
      && |ns| == |nodes| && |ns[left].keys| == |nodes[left].keys| - 1 && |ns[u].keys| == |nodes[u].keys| + 1
      && |ns[p].keys| == |nodes[p].keys|
  {
  }

  lemma MergeCounts(nodes: seq<Node>, p: NodeId, ci: nat)
    requires PairIn(nodes, p, ci)
    requires p != nodes[p].children[ci] && p != nodes[p].children[ci + 1]
    requires nodes[p].children[ci] != nodes[p].children[ci + 1]
    ensures var left, right := nodes[p].children[ci], nodes[p].children[ci + 1]; var ns := Merge(nodes, p, ci);
      && |ns| == |nodes| && |ns[p].keys| == |nodes[p].keys| - 1
      && |ns[left].keys| == |nodes[left].keys| + |nodes[right].keys| + (if nodes[left].leaf then 0 else 1)
  {
  }

  // The siblings and their parent are three nodes.
  lemma SiblingsApart(t: Tree, l: nat, j: nat, p: nat, ci: nat)
    requires RebalanceReady(t, l, j, p, ci)
    ensures t.chain[l][j] != t.chain[l][j + 1]
    ensures t.chain[l + 1][p] != t.chain[l][j] && t.chain[l + 1][p] != t.chain[l][j + 1]
    ensures t.chain[l + 1][p] < |t.nodes| && ci + 1 < |t.nodes[t.chain[l + 1][p]].children|
    ensures t.nodes[t.chain[l + 1][p]].children[ci] == t.chain[l][j]
    ensures t.nodes[t.chain[l + 1][p]].children[ci + 1] == t.chain[l][j + 1]
  {
    hide ShapeOK, UpOK, HintsOK, LeafOK, HintOK;
    SiblingsDiffer(t, l, j);
  }

  // A node one short takes one from a sibling that can spare it.
  lemma BorrowRightSizes(t: Tree, capacity: nat, l: nat, j: nat, p: nat, ci: nat)
    requires RebalanceReady(t, l, j, p, ci) && SizesOK(t, capacity, None, Some(t.chain[l][j])) && capacity >= 2
    requires |t.nodes[t.chain[l][j]].keys| < capacity / 2 < |t.nodes[t.chain[l][j + 1]].keys|
    ensures SizesOK(BorrowRightTree(t, t.chain[l + 1][p], ci), capacity, None, None)
  {
    hide SizesOK, BorrowRight, PairChange, HintsOK, LevelOK, LeafOK, HintOK;
    var t' := BorrowRightTree(t, t.chain[l + 1][p], ci);
    var x := t.chain[l][j];
    SiblingsApart(t, l, j, p, ci);
    BorrowRightCounts(t.nodes, t.chain[l + 1][p], ci);
    BorrowRightShape(t, l, j, p, ci);
    Bounds(t, capacity, l, j, x);
    PairSizes(t, t', capacity, l, j, p, ci, [t.chain[l][j], t.chain[l][j + 1]], x, None);
  }

  lemma BorrowLeftSizes(t: Tree, capacity: nat, l: nat, j: nat, p: nat, ci: nat)
    requires RebalanceReady(t, l, j, p, ci) && SizesOK(t, capacity, None, Some(t.chain[l][j + 1])) && capacity >= 2
    requires |t.nodes[t.chain[l][j + 1]].keys| < capacity / 2 < |t.nodes[t.chain[l][j]].keys|
    ensures SizesOK(BorrowLeftTree(t, t.chain[l + 1][p], ci), capacity, None, None)
  {
    hide SizesOK, BorrowLeft, PairChange, HintsOK, LevelOK, LeafOK, HintOK;
    var t' := BorrowLeftTree(t, t.chain[l + 1][p], ci);
    var x := t.chain[l][j + 1];
    SiblingsApart(t, l, j, p, ci);
    BorrowLeftCounts(t.nodes, t.chain[l + 1][p], ci);
    BorrowLeftShape(t, l, j, p, ci);
    Bounds(t, capacity, l, j, x);
    PairSizes(t, t', capacity, l, j, p, ci, [t.chain[l][j], t.chain[l][j + 1]], x, None);
  }

  // What a node and its right neighbour may hold, when one of them is one short.
  lemma Bounds(t: Tree, capacity: nat, l: nat, j: nat, x: NodeId)
    requires ShapeOK(t, NoHole) && SizesOK(t, capacity, None, Some(x)) && l < Top(t) && j + 1 < |t.chain[l]|
    ensures forall i :: j <= i <= j + 1 ==>
      && t.chain[l][i] < |t.nodes| && |t.nodes[t.chain[l][i]].keys| <= capacity
      && |t.nodes[t.chain[l][i]].keys| + (if t.chain[l][i] == x then 1 else 0) >= capacity / 2
  {
    hide UpOK, HintsOK, LeavesOK, TopOK, LevelOK;
    assert LevelOK(t, l) && LevelOK(t, Top(t));
    Sized(t, capacity, None, Some(x), l, j);
    Sized(t, capacity, None, Some(x), l, j + 1);
    NotSole(t, l, j);
    NotSole(t, l, j + 1);
  }

  // Two siblings of which neither can spare an entry fit in one node, and the parent is
  // one short at most.
  lemma MergeSizes(t: Tree, capacity: nat, l: nat, j: nat, p: nat, ci: nat, x: NodeId)
    requires RebalanceReady(t, l, j, p, ci) && SizesOK(t, capacity, None, Some(x)) && capacity >= 2
    requires x == t.chain[l][j] || x == t.chain[l][j + 1]
    requires |t.nodes[x].keys| < capacity / 2
    requires forall i :: j <= i <= j + 1 ==> |t.nodes[t.chain[l][i]].keys| <= capacity / 2
    ensures SizesOK(MergeTree(t, l, j, t.chain[l + 1][p], ci), capacity, None, Some(t.chain[l + 1][p]))
  {
    hide SizesOK, Merge, PairChange, HintsOK, LevelOK, LeafOK, HintOK;
    var t' := MergeTree(t, l, j, t.chain[l + 1][p], ci);
    SiblingsApart(t, l, j, p, ci);
    MergeCounts(t.nodes, t.chain[l + 1][p], ci);
    MergeShape(t, l, j, p, ci);
    Bounds(t, capacity, l, j, x);
    PairSizes(t, t', capacity, l, j, p, ci, [t.chain[l][j]], x, Some(t.chain[l + 1][p]));
  }
}
