/** The shape of a B+-tree that only one thread uses, and why each restructuring keeps it.
    A tree is seen level by level: the entries of the leaves, read left to right, are the
    contents; the children of one level, read left to right with the keys that bound
    them, are the level below. Splits, borrows and merges regroup such a reading without
    changing it. */
module BPlusShape {
  import opened Basics
  import opened TreeKeys
  import opened Sequences
  import opened SortedPairs

  datatype Node = Node(
    leaf: bool, keys: seq<Key>, values: seq<InternalId>, children: seq<NodeId>,
    right: Option<NodeId>, high: Option<Key>, hint: Option<NodeId>)

  type Link = (NodeId, Option<Key>)

  /** chain[l]: the nodes of level l from left to right, leaves at level 0; level[n]: the
      level of node n. Both are ghost state of the class BPlusTree. */
  datatype Tree = Tree(nodes: seq<Node>, root: NodeId, chain: seq<seq<NodeId>>, level: seq<nat>)

  function EntryRow(nd: Node): seq<Pair> {
    seq(|nd.keys|, i requires 0 <= i < |nd.keys| => (nd.keys[i], if i < |nd.values| then nd.values[i] else 0))
  }

  // A node's children, each with the key that bounds it: child i by separator i, the
  // last child by the node's own high key.
  function KidRow(nd: Node): seq<Link> {
    seq(|nd.children|, i requires 0 <= i < |nd.children| =>
      (nd.children[i], if i < |nd.keys| then Some(nd.keys[i]) else nd.high))
  }

  function EntryRows(nodes: seq<Node>, ids: seq<NodeId>): seq<seq<Pair>> {
    seq(|ids|, i requires 0 <= i < |ids| => if ids[i] < |nodes| then EntryRow(nodes[ids[i]]) else [])
  }

  function KidRows(nodes: seq<Node>, ids: seq<NodeId>): seq<seq<Link>> {
    seq(|ids|, i requires 0 <= i < |ids| => if ids[i] < |nodes| then KidRow(nodes[ids[i]]) else [])
  }

  // Every entry of the tree, in tree order.
  function Entries(t: Tree): seq<Pair>
    requires |t.chain| > 0
  {
    Flatten(EntryRows(t.nodes, t.chain[0]))
  }

  function Covers(nodes: seq<Node>, ids: seq<NodeId>): seq<Link> {
    seq(|ids|, i requires 0 <= i < |ids| => (ids[i], if ids[i] < |nodes| then nodes[ids[i]].high else None))
  }

  // ----- the shape -----

  predicate NodeOK(nd: Node) {
    if nd.leaf then |nd.values| == |nd.keys| && nd.children == [] else |nd.children| == |nd.keys| + 1
  }

  ghost predicate MemberOK(t: Tree, l: nat, n: NodeId) {
    && n < |t.nodes| == |t.level|
    && t.level[n] == l && (t.nodes[n].leaf <==> l == 0) && NodeOK(t.nodes[n])
  }

  // Each node of a level links to the next; only the last is unbounded.
  ghost predicate ThreadOK(nodes: seq<Node>, ids: seq<NodeId>, i: nat)
    requires i < |ids| && ids[i] < |nodes|
  {
    var nd := nodes[ids[i]];
    && nd.right == (if i + 1 < |ids| then Some(ids[i + 1]) else None)
    && (nd.high.None? <==> i + 1 == |ids|)
  }

  ghost predicate LevelOK(t: Tree, l: nat)
    requires l < |t.chain|
  {
    var ids := t.chain[l];
    && ids != [] && Distinct(ids)
    && (forall i :: 0 <= i < |ids| ==> MemberOK(t, l, ids[i]))
    && (forall i :: 0 <= i < |ids| ==> ThreadOK(t.nodes, ids, i))
  }

  ghost predicate AtLeast(low: Option<Key>, k: Key) { low.Some? ==> low.value <= k }
  ghost predicate AtMost(k: Key, high: Option<Key>) { high.Some? ==> k <= high.value }

  // The bound of a leaf from below: the high key of the leaf to its left.
  function LowOf(nodes: seq<Node>, ids: seq<NodeId>, i: nat): Option<Key>
    requires i < |ids|
  {
    if i > 0 && ids[i - 1] < |nodes| then nodes[ids[i - 1]].high else None
  }

  ghost predicate KeysWithin(low: Option<Key>, keys: seq<Key>, high: Option<Key>) {
    && Sorted(keys)
    && (low.Some? && high.Some? ==> low.value <= high.value)
    && forall i :: 0 <= i < |keys| ==> AtLeast(low, keys[i]) && AtMost(keys[i], high)
  }

  ghost predicate LeafOK(nodes: seq<Node>, ids: seq<NodeId>, i: nat)
    requires i < |ids| && ids[i] < |nodes|
  {
    KeysWithin(LowOf(nodes, ids, i), nodes[ids[i]].keys, nodes[ids[i]].high)
  }

  ghost predicate LeavesOK(t: Tree)
    requires |t.chain| > 0 && LevelOK(t, 0)
  {
    forall i :: 0 <= i < |t.chain[0]| ==> MemberOK(t, 0, t.chain[0][i]) && LeafOK(t.nodes, t.chain[0], i)
  }

  /** While an insert climbs, the right half of one split is not yet in its parent. */
  datatype Hole = NoHole | HoleAt(l: nat, j: nat)

  // What the parents of level l should hold: each node of the level with its high key;
  // around a hole, the left half stands for both.
  function Expected(t: Tree, l: nat, hole: Hole): seq<Link>
    requires l < |t.chain|
  {
    var ids := t.chain[l];
    var c := Covers(t.nodes, ids);
    if hole.HoleAt? && hole.l == l && hole.j + 1 < |ids|
    then Cut(c, hole.j, 2, [(ids[hole.j], c[hole.j + 1].1)]) else c
  }

  ghost predicate UpOK(t: Tree, l: nat, hole: Hole)
    requires l + 1 < |t.chain|
  {
    Flatten(KidRows(t.nodes, t.chain[l + 1])) == Expected(t, l, hole)
  }

  // The parent_hint of every child names the node that holds it.
  ghost predicate HintOK(nodes: seq<Node>, p: NodeId) {
    p < |nodes| &&
    forall i :: 0 <= i < |nodes[p].children| ==>
      nodes[p].children[i] < |nodes| && nodes[nodes[p].children[i]].hint == Some(p)
  }

  ghost predicate HintsOK(t: Tree, l: nat)
    requires l < |t.chain|
  {
    forall i :: 0 <= i < |t.chain[l]| ==> HintOK(t.nodes, t.chain[l][i])
  }

  function Top(t: Tree): nat
    requires |t.chain| > 0
  {
    |t.chain| - 1
  }

  ghost predicate TopOK(t: Tree, hole: Hole)
    requires |t.chain| > 0
  {
    var top := t.chain[Top(t)];
    && t.root < |t.nodes| && t.nodes[t.root].hint.None?
    && top != [] && top[0] == t.root
    && |top| == (if hole == HoleAt(Top(t), 0) then 2 else 1)
  }

  ghost predicate HoleOK(t: Tree, hole: Hole) {
    hole.HoleAt? ==> hole.l < |t.chain| && hole.j + 1 < |t.chain[hole.l]|
  }

  ghost predicate ShapeOK(t: Tree, hole: Hole) {
    && |t.chain| > 0 && HoleOK(t, hole)
    && (forall l :: 0 <= l < |t.chain| ==> LevelOK(t, l))
    && LeavesOK(t)
    && (forall l :: 0 <= l < |t.chain| - 1 ==> UpOK(t, l, hole))
    && (forall l :: 0 <= l < |t.chain| ==> HintsOK(t, l))
    && TopOK(t, hole)
  }

  // ----- occupancy -----

  // Nodes are at least half full, but for the root; `over` may hold one key too many and
  // `under` one too few.
  ghost predicate SizeOK(t: Tree, capacity: nat, n: NodeId, over: Option<NodeId>, under: Option<NodeId>)
    requires n < |t.nodes| && |t.chain| > 0
  {
    var k := |t.nodes[n].keys|;
    && k <= capacity + (if over == Some(n) then 1 else 0)
    && (if t.chain[Top(t)] == [n] then t.nodes[n].leaf || under == Some(n) || k >= 1
        else k + (if under == Some(n) then 1 else 0) >= capacity / 2)
  }

  ghost predicate SizesOK(t: Tree, capacity: nat, over: Option<NodeId>, under: Option<NodeId>) {
    && |t.chain| > 0
    && forall l, i :: 0 <= l < |t.chain| && 0 <= i < |t.chain[l]| ==>
         t.chain[l][i] < |t.nodes| && SizeOK(t, capacity, t.chain[l][i], over, under)
  }

  // ----- levels that a change leaves alone -----

  // b is a, but for the hint.
  ghost predicate SameNode(a: Node, b: Node) { b == a.(hint := b.hint) }

  // Level l reads the same in t' as in t.
  ghost predicate SameLevel(t: Tree, t': Tree, l: nat) {
    && l < |t.chain| && l < |t'.chain| && t'.chain[l] == t.chain[l]
    && |t.level| == |t.nodes| <= |t'.nodes| == |t'.level|
    && (forall n :: 0 <= n < |t.level| ==> t'.level[n] == t.level[n])
    && forall i :: 0 <= i < |t.chain[l]| ==>
         t.chain[l][i] < |t.nodes| && SameNode(t.nodes[t.chain[l][i]], t'.nodes[t.chain[l][i]])
  }

  lemma SameLevelReads(t: Tree, t': Tree, l: nat)
    requires SameLevel(t, t', l) && LevelOK(t, l)
    ensures LevelOK(t', l)
    ensures KidRows(t'.nodes, t'.chain[l]) == KidRows(t.nodes, t.chain[l])
    ensures EntryRows(t'.nodes, t'.chain[l]) == EntryRows(t.nodes, t.chain[l])
    ensures Covers(t'.nodes, t'.chain[l]) == Covers(t.nodes, t.chain[l])
  {
    var ids := t.chain[l];
    forall i | 0 <= i < |ids| ensures ThreadOK(t'.nodes, ids, i) { assert ThreadOK(t.nodes, ids, i); }
    assert KidRows(t'.nodes, ids) == KidRows(t.nodes, ids);
    assert EntryRows(t'.nodes, ids) == EntryRows(t.nodes, ids);
    assert Covers(t'.nodes, ids) == Covers(t.nodes, ids);
  }

  lemma SameLeaves(t: Tree, t': Tree)
    requires SameLevel(t, t', 0) && LevelOK(t, 0) && LeavesOK(t)
    ensures LevelOK(t', 0) && LeavesOK(t') && Entries(t') == Entries(t)
  {
    SameLevelReads(t, t', 0);
    forall i | 0 <= i < |t.chain[0]| ensures LeafOK(t'.nodes, t'.chain[0], i) {
      assert LeafOK(t.nodes, t.chain[0], i);
    }
  }

  // The link between levels l and l + 1 survives when both read the same.
  lemma SameUp(t: Tree, t': Tree, l: nat, hole: Hole, hole': Hole)
    requires l + 1 < |t.chain| && LevelOK(t, l) && LevelOK(t, l + 1)
    requires SameLevel(t, t', l) && SameLevel(t, t', l + 1) && UpOK(t, l, hole)
    requires hole' == hole || ((hole.HoleAt? ==> hole.l != l) && (hole'.HoleAt? ==> hole'.l != l))
    ensures UpOK(t', l, hole')
  {
    SameLevelReads(t, t', l);
    SameLevelReads(t, t', l + 1);
    hide LevelOK, SameLevel, KidRows, Covers, Flatten;
    assert t'.chain[l] == t.chain[l];
  }

  // ----- one level regrouped -----

  // In t' the k nodes of level l from j on are replaced by `ids`, and every other node of
  // the level reads the same.
  ghost predicate Regrouped(t: Tree, t': Tree, l: nat, j: nat, k: nat, ids: seq<NodeId>) {
    && l < |t.chain| == |t'.chain| && 0 < k && j + k <= |t.chain[l]| && ids != []
    && t'.chain == t.chain[l := Cut(t.chain[l], j, k, ids)]
    && |t.level| == |t.nodes| <= |t'.nodes| == |t'.level|
    && (forall n :: 0 <= n < |t.level| ==> t'.level[n] == t.level[n])
    && (forall i :: 0 <= i < |t.chain[l]| && !(j <= i < j + k) ==>
         t.chain[l][i] < |t.nodes| && SameNode(t.nodes[t.chain[l][i]], t'.nodes[t.chain[l][i]]))
    && (forall i :: 0 <= i < |ids| ==> MemberOK(t', l, ids[i]))
    && Distinct(Cut(t.chain[l], j, k, ids))
    // the run begins with the same node, is threaded, and ends where the old one ended
    && ids[0] == t.chain[l][j]
    && (forall i :: 0 <= i < |ids| - 1 ==>
         t'.nodes[ids[i]].right == Some(ids[i + 1]) && t'.nodes[ids[i]].high.Some?)
    && var last := t.chain[l][j + k - 1];
    && last < |t.nodes|
    && t'.nodes[ids[|ids| - 1]].right == t.nodes[last].right
    && t'.nodes[ids[|ids| - 1]].high == t.nodes[last].high
  }

  lemma RegroupedLevel(t: Tree, t': Tree, l: nat, j: nat, k: nat, ids: seq<NodeId>)
    requires Regrouped(t, t', l, j, k, ids) && LevelOK(t, l)
    ensures LevelOK(t', l)
  {
    var old_, new_ := t.chain[l], t'.chain[l];
    forall i | 0 <= i < |new_| ensures MemberOK(t', l, new_[i]) && ThreadOK(t'.nodes, new_, i) {
      if i < j {
        assert MemberOK(t, l, old_[i]) && ThreadOK(t.nodes, old_, i);
      } else if i >= j + |ids| {
        var o := i - |ids| + k;
        assert new_[i] == old_[o] && MemberOK(t, l, old_[o]) && ThreadOK(t.nodes, old_, o);
      } else {
        assert new_[i] == ids[i - j];
        assert ThreadOK(t.nodes, old_, j + k - 1);
      }
    }
  }

  // Position i of the regrouped level: before the run, in it, or after it.
  lemma RegroupedIndex(t: Tree, t': Tree, l: nat, j: nat, k: nat, ids: seq<NodeId>, i: nat)
    requires Regrouped(t, t', l, j, k, ids) && i < |t'.chain[l]|
    ensures i < j ==> t'.chain[l][i] == t.chain[l][i]
    ensures j <= i < j + |ids| ==> t'.chain[l][i] == ids[i - j]
    ensures i >= j + |ids| ==>
      i - |ids| + k < |t.chain[l]| && t'.chain[l][i] == t.chain[l][i - |ids| + k]
  {
  }

  lemma RegroupedKidRows(t: Tree, t': Tree, l: nat, j: nat, k: nat, ids: seq<NodeId>)
    requires Regrouped(t, t', l, j, k, ids)
    ensures KidRows(t'.nodes, t'.chain[l]) == Cut(KidRows(t.nodes, t.chain[l]), j, k, KidRows(t'.nodes, ids))
  {
    var a, b := KidRows(t'.nodes, t'.chain[l]), Cut(KidRows(t.nodes, t.chain[l]), j, k, KidRows(t'.nodes, ids));
    forall i | 0 <= i < |a| ensures a[i] == b[i] { RegroupedIndex(t, t', l, j, k, ids, i); }
  }

  lemma RegroupedEntryRows(t: Tree, t': Tree, l: nat, j: nat, k: nat, ids: seq<NodeId>)
    requires Regrouped(t, t', l, j, k, ids)
    ensures EntryRows(t'.nodes, t'.chain[l]) == Cut(EntryRows(t.nodes, t.chain[l]), j, k, EntryRows(t'.nodes, ids))
  {
    var a, b := EntryRows(t'.nodes, t'.chain[l]), Cut(EntryRows(t.nodes, t.chain[l]), j, k, EntryRows(t'.nodes, ids));
    forall i | 0 <= i < |a| ensures a[i] == b[i] { RegroupedIndex(t, t', l, j, k, ids, i); }
  }

  lemma RegroupedCovers(t: Tree, t': Tree, l: nat, j: nat, k: nat, ids: seq<NodeId>)
    requires Regrouped(t, t', l, j, k, ids)
    ensures Covers(t'.nodes, t'.chain[l]) == Cut(Covers(t.nodes, t.chain[l]), j, k, Covers(t'.nodes, ids))
  {
    var a, b := Covers(t'.nodes, t'.chain[l]), Cut(Covers(t.nodes, t.chain[l]), j, k, Covers(t'.nodes, ids));
    forall i | 0 <= i < |a| ensures a[i] == b[i] { RegroupedIndex(t, t', l, j, k, ids, i); }
  }

  // The level below an inner level is read as before when the run holds the same children.
  lemma RegroupedDown(t: Tree, t': Tree, l: nat, j: nat, k: nat, ids: seq<NodeId>, hole: Hole, hole': Hole)
    requires Regrouped(t, t', l, j, k, ids) && LevelOK(t, l) && l > 0
    requires LevelOK(t, l - 1) && SameLevel(t, t', l - 1) && UpOK(t, l - 1, hole)
    requires Flatten(KidRows(t'.nodes, ids)) == Flatten(KidRows(t.nodes, t.chain[l])[j..j + k])
    requires (hole.HoleAt? ==> hole.l != l - 1) && (hole'.HoleAt? ==> hole'.l != l - 1)
    ensures UpOK(t', l - 1, hole')
  {
    hide LevelOK, KidRows, Flatten, Covers;
    RegroupedFlat(t, t', l, j, k, ids);
    SameLevelReads(t, t', l - 1);
  }

  lemma RegroupedFlat(t: Tree, t': Tree, l: nat, j: nat, k: nat, ids: seq<NodeId>)
    requires Regrouped(t, t', l, j, k, ids)
    requires Flatten(KidRows(t'.nodes, ids)) == Flatten(KidRows(t.nodes, t.chain[l])[j..j + k])
    ensures Flatten(KidRows(t'.nodes, t'.chain[l])) == Flatten(KidRows(t.nodes, t.chain[l]))
  {
    hide Flatten;
    RegroupedKidRows(t, t', l, j, k, ids);
    FlattenRegroup(KidRows(t.nodes, t.chain[l]), j, k, KidRows(t'.nodes, ids));
  }

  // The contents are as before when the run of leaves holds the same entries.
  lemma RegroupedEntries(t: Tree, t': Tree, j: nat, k: nat, ids: seq<NodeId>)
    requires |t.chain| > 0 && Regrouped(t, t', 0, j, k, ids) && LevelOK(t, 0)
    requires Flatten(EntryRows(t'.nodes, ids)) == Flatten(EntryRows(t.nodes, t.chain[0])[j..j + k])
    ensures Entries(t') == Entries(t)
  {
    RegroupedEntryRows(t, t', 0, j, k, ids);
    FlattenRegroup(EntryRows(t.nodes, t.chain[0]), j, k, EntryRows(t'.nodes, ids));
  }

  ghost predicate RunWithin(nodes: seq<Node>, low: Option<Key>, ids: seq<NodeId>) {
    forall i :: 0 <= i < |ids| ==>
      && ids[i] < |nodes|
      && KeysWithin(if i == 0 then low else LowOf(nodes, ids, i), nodes[ids[i]].keys, nodes[ids[i]].high)
  }

  lemma RegroupedLow(t: Tree, t': Tree, l: nat, j: nat, k: nat, ids: seq<NodeId>, i: nat)
    requires Regrouped(t, t', l, j, k, ids) && i < |t'.chain[l]|
    ensures i <= j ==> LowOf(t'.nodes, t'.chain[l], i) == LowOf(t.nodes, t.chain[l], i)
    ensures j < i < j + |ids| ==> LowOf(t'.nodes, t'.chain[l], i) == LowOf(t'.nodes, ids, i - j)
    ensures j + |ids| <= i ==> i - |ids| + k < |t.chain[l]|
    ensures j + |ids| <= i ==>
      LowOf(t'.nodes, t'.chain[l], i) == LowOf(t.nodes, t.chain[l], i - |ids| + k)
  {
    RegroupedIndex(t, t', l, j, k, ids, i);
    if i > 0 { RegroupedIndex(t, t', l, j, k, ids, i - 1); }
  }

  lemma RegroupedLeaf(t: Tree, t': Tree, j: nat, k: nat, ids: seq<NodeId>, i: nat)
    requires |t.chain| > 0 && Regrouped(t, t', 0, j, k, ids) && LevelOK(t, 0) && LeavesOK(t)
    requires RunWithin(t'.nodes, LowOf(t.nodes, t.chain[0], j), ids)
    requires i < |t'.chain[0]| && t'.chain[0][i] < |t'.nodes|
    ensures LeafOK(t'.nodes, t'.chain[0], i)
  {
    RegroupedIndex(t, t', 0, j, k, ids, i);
    RegroupedLow(t, t', 0, j, k, ids, i);
    if i < j {
      assert LeafOK(t.nodes, t.chain[0], i);
    } else if i >= j + |ids| {
      assert LeafOK(t.nodes, t.chain[0], i - |ids| + k);
    }
  }

  lemma RegroupedLeaves(t: Tree, t': Tree, j: nat, k: nat, ids: seq<NodeId>)
    requires |t.chain| > 0 && Regrouped(t, t', 0, j, k, ids) && LevelOK(t, 0) && LeavesOK(t)
    requires RunWithin(t'.nodes, LowOf(t.nodes, t.chain[0], j), ids)
    ensures LevelOK(t', 0) && LeavesOK(t')
  {
    RegroupedLevel(t, t', 0, j, k, ids);
    forall i | 0 <= i < |t'.chain[0]| ensures MemberOK(t', 0, t'.chain[0][i]) && LeafOK(t'.nodes, t'.chain[0], i) {
      RegroupedLeaf(t, t', j, k, ids, i);
    }
  }

  // Hints of the children of level l survive when every child keeps its hint, but for
  // those of the run, which are rewritten.
  lemma RegroupedHints(t: Tree, t': Tree, l: nat, j: nat, k: nat, ids: seq<NodeId>)
    requires Regrouped(t, t', l, j, k, ids) && HintsOK(t, l)
    requires forall i :: 0 <= i < |ids| ==> HintOK(t'.nodes, ids[i])
    requires forall i, c :: 0 <= i < |t.chain[l]| && !(j <= i < j + k) && c in t.nodes[t.chain[l][i]].children ==>
      c < |t'.nodes| && (c < |t.nodes| ==> t'.nodes[c].hint == t.nodes[c].hint)
    ensures HintsOK(t', l)
  {
    var old_, new_ := t.chain[l], t'.chain[l];
    forall i | 0 <= i < |new_| ensures HintOK(t'.nodes, new_[i]) {
      if i < j {
        assert HintOK(t.nodes, old_[i]);
      } else if i >= j + |ids| {
        assert new_[i] == old_[i - |ids| + k] && HintOK(t.nodes, old_[i - |ids| + k]);
      } else {
        assert new_[i] == ids[i - j];
      }
    }
  }

  // ----- what a node becomes -----

  function WithEntry(nd: Node, key: Key, id: InternalId): Node
    requires NodeOK(nd) && nd.leaf
  {
    var pos := LowerBound(nd.keys, key);
    nd.(keys := InsertAt(nd.keys, pos, key), values := InsertAt(nd.values, pos, id))
  }

  function WithoutEntry(nd: Node, pos: nat): Node
    requires NodeOK(nd) && nd.leaf && pos < |nd.keys|
  {
    nd.(keys := RemoveAt(nd.keys, pos), values := RemoveAt(nd.values, pos))
  }

  // `split_leaf_`: the left half keeps the middle; its last key is the separator.
  function LeafMid(nd: Node): nat { (|nd.keys| + 1) / 2 }

  function LeafLeft(nd: Node, r: NodeId): Node
    requires NodeOK(nd) && nd.leaf && |nd.keys| > 0
  {
    var mid := LeafMid(nd);
    nd.(keys := nd.keys[..mid], values := nd.values[..mid], right := Some(r), high := Some(nd.keys[mid - 1]))
  }

  function LeafRight(nd: Node): Node
    requires NodeOK(nd) && nd.leaf && |nd.keys| > 0
  {
    var mid := LeafMid(nd);
    Node(true, nd.keys[mid..], nd.values[mid..], [], nd.right, nd.high, None)
  }

  function SplitLeaf(t: Tree, j: nat): Tree
    requires |t.chain| > 0 && j < |t.chain[0]| && t.chain[0][j] < |t.nodes|
    requires var nd := t.nodes[t.chain[0][j]]; NodeOK(nd) && nd.leaf && |nd.keys| > 0
  {
    var n, r := t.chain[0][j], |t.nodes|;
    t.(nodes := t.nodes[n := LeafLeft(t.nodes[n], r)] + [LeafRight(t.nodes[n])],
       chain := t.chain[0 := Cut(t.chain[0], j, 1, [n, r])], level := t.level + [0])
  }

  // ----- splitting a leaf -----

  ghost predicate LeafAt(t: Tree, j: nat) {
    |t.chain| > 0 && LevelOK(t, 0) && j < |t.chain[0]| && MemberOK(t, 0, t.chain[0][j])
  }

  lemma DistinctCut(ids: seq<NodeId>, j: nat, n: NodeId, r: NodeId)
    requires Distinct(ids) && j < |ids| && ids[j] == n && r !in ids
    ensures Distinct(Cut(ids, j, 1, [n, r]))
  {
    assert Cut(ids, j, 1, [n, r]) == InsertAt(ids, j + 1, r);
    InsertDistinct(ids, j + 1, r);
  }

  lemma LevelMembers(t: Tree, l: nat, n: NodeId)
    requires l < |t.chain| && LevelOK(t, l) && n in t.chain[l]
    ensures MemberOK(t, l, n)
  {
    var i :| 0 <= i < |t.chain[l]| && t.chain[l][i] == n;
  }

  lemma SplitLeafRegroups(t: Tree, j: nat)
    requires LeafAt(t, j) && |t.nodes[t.chain[0][j]].keys| > 0
    ensures Regrouped(t, SplitLeaf(t, j), 0, j, 1, [t.chain[0][j], |t.nodes|])
    ensures forall l :: 0 < l < |t.chain| && LevelOK(t, l) ==> SameLevel(t, SplitLeaf(t, j), l)
  {
    var n, r := t.chain[0][j], |t.nodes|;
    var t' := SplitLeaf(t, j);
    forall i | 0 <= i < |t.chain[0]| ensures t.chain[0][i] < |t.nodes| { assert MemberOK(t, 0, t.chain[0][i]); }
    DistinctCut(t.chain[0], j, n, r);
    assert MemberOK(t', 0, n) && MemberOK(t', 0, r);
    assert ThreadOK(t.nodes, t.chain[0], j);
    forall l | 0 < l < |t.chain| && LevelOK(t, l) ensures SameLevel(t, t', l) {
      forall i | 0 <= i < |t.chain[l]|
        ensures t.chain[l][i] < |t.nodes| && SameNode(t.nodes[t.chain[l][i]], t'.nodes[t.chain[l][i]])
      {
        assert MemberOK(t, l, t.chain[l][i]);
      }
    }
  }

  lemma SplitLeafEntries(t: Tree, j: nat)
    requires LeafAt(t, j) && |t.nodes[t.chain[0][j]].keys| > 0
    ensures Entries(SplitLeaf(t, j)) == Entries(t)
  {
    var n, r := t.chain[0][j], |t.nodes|;
    var t' := SplitLeaf(t, j);
    SplitLeafRegroups(t, j);
    assert EntryRow(t'.nodes[n]) + EntryRow(t'.nodes[r]) == EntryRow(t.nodes[n]);
    assert EntryRows(t'.nodes, [n, r]) == [EntryRow(t'.nodes[n]), EntryRow(t'.nodes[r])];
    assert EntryRows(t.nodes, t.chain[0])[j..j + 1] == [EntryRow(t.nodes[n])];
    FlattenTwo(EntryRow(t'.nodes[n]), EntryRow(t'.nodes[r]));
    FlattenOne(EntryRow(t.nodes[n]));
    RegroupedEntries(t, t', j, 1, [n, r]);
  }

  lemma SplitLeafLeaves(t: Tree, j: nat)
    requires LeafAt(t, j) && LeavesOK(t) && |t.nodes[t.chain[0][j]].keys| > 0
    ensures var t' := SplitLeaf(t, j); LevelOK(t', 0) && LeavesOK(t')
  {
    SplitLeafRegroups(t, j);
    assert LeafOK(t.nodes, t.chain[0], j);
    RegroupedLeaves(t, SplitLeaf(t, j), j, 1, [t.chain[0][j], |t.nodes|]);
  }

  // A split leaves its parents with what they should hold around the hole.
  lemma SplitUp(t: Tree, t': Tree, l: nat, j: nat, n: NodeId, r: NodeId)
    requires l + 1 < |t.chain| && LevelOK(t, l) && LevelOK(t, l + 1) && UpOK(t, l, NoHole)
    requires j < |t.chain[l]| && n == t.chain[l][j]
    requires Regrouped(t, t', l, j, 1, [n, r]) && SameLevel(t, t', l + 1)
    ensures UpOK(t', l, HoleAt(l, j))
  {
    RegroupedCovers(t, t', l, j, 1, [n, r]);
    SameLevelReads(t, t', l + 1);
    var c, c' := Covers(t.nodes, t.chain[l]), Covers(t'.nodes, t'.chain[l]);
    assert c' == c[..j] + Covers(t'.nodes, [n, r]) + c[j + 1..];
    assert Cut(c', j, 2, [(n, c'[j + 1].1)]) == c;
  }

  // When old nodes keep their children and hints, so does every level.
  lemma HintsKept(t: Tree, t': Tree, l: nat)
    requires l < |t.chain| && l < |t'.chain| && t'.chain[l] == t.chain[l] && HintsOK(t, l)
    requires |t.nodes| <= |t'.nodes|
    requires forall n :: 0 <= n < |t.nodes| ==> t'.nodes[n].hint == t.nodes[n].hint
    requires forall n :: 0 <= n < |t.nodes| ==> t'.nodes[n].children == t.nodes[n].children
    ensures HintsOK(t', l)
  {
    forall i | 0 <= i < |t.chain[l]| ensures HintOK(t'.nodes, t'.chain[l][i]) {
      assert HintOK(t.nodes, t.chain[l][i]);
    }
  }

  lemma LeafHints(t: Tree)
    requires |t.chain| > 0 && LevelOK(t, 0)
    ensures HintsOK(t, 0)
  {
    forall i | 0 <= i < |t.chain[0]| ensures HintOK(t.nodes, t.chain[0][i]) {
      assert MemberOK(t, 0, t.chain[0][i]);
    }
  }

  lemma SplitLeafUp(t: Tree, j: nat, l: nat)
    requires LeafAt(t, j) && |t.nodes[t.chain[0][j]].keys| > 0
    requires l + 1 < |t.chain| && LevelOK(t, l) && LevelOK(t, l + 1) && UpOK(t, l, NoHole)
    ensures UpOK(SplitLeaf(t, j), l, HoleAt(0, j))
  {
    SplitLeafRegroups(t, j);
    if l == 0 {
      SplitUp(t, SplitLeaf(t, j), 0, j, t.chain[0][j], |t.nodes|);
    } else {
      SameUp(t, SplitLeaf(t, j), l, NoHole, HoleAt(0, j));
    }
  }

  lemma SplitLeafTop(t: Tree, j: nat)
    requires LeafAt(t, j) && |t.nodes[t.chain[0][j]].keys| > 0 && TopOK(t, NoHole)
    ensures TopOK(SplitLeaf(t, j), HoleAt(0, j)) && HoleOK(SplitLeaf(t, j), HoleAt(0, j))
  {
    if Top(t) == 0 { assert SplitLeaf(t, j).chain[0] == [t.root, |t.nodes|]; }
  }

  lemma SplitLeafShape(t: Tree, j: nat)
    requires ShapeOK(t, NoHole) && LeafAt(t, j) && |t.nodes[t.chain[0][j]].keys| > 0
    ensures var t' := SplitLeaf(t, j); ShapeOK(t', HoleAt(0, j)) && Entries(t') == Entries(t)
  {
    hide LevelOK, HintsOK, UpOK, LeavesOK, Entries, TopOK, HoleOK;
    var t' := SplitLeaf(t, j);
    assert LevelOK(t, 0);
    SplitLeafEntries(t, j);
    SplitLeafLeaves(t, j);
    SplitLeafLevels(t, j);
    SplitLeafTop(t, j);
    forall l | 0 <= l < |t.chain| - 1 ensures UpOK(t', l, HoleAt(0, j)) {
      assert LevelOK(t, l) && LevelOK(t, l + 1) && UpOK(t, l, NoHole);
      SplitLeafUp(t, j, l);
    }
  }

  lemma SplitLeafLevels(t: Tree, j: nat)
    requires ShapeOK(t, NoHole) && LeafAt(t, j) && |t.nodes[t.chain[0][j]].keys| > 0
    ensures forall l :: 0 <= l < |t.chain| ==> LevelOK(SplitLeaf(t, j), l) && HintsOK(SplitLeaf(t, j), l)
  {
    var t' := SplitLeaf(t, j);
    SplitLeafRegroups(t, j);
    SplitLeafLeaves(t, j);
    hide HintsOK, LeavesOK, Regrouped;
    forall l | 0 <= l < |t.chain| ensures LevelOK(t', l) && HintsOK(t', l) {
      assert LevelOK(t, l) && HintsOK(t, l);
      hide LevelOK, SameLevel;
      if l > 0 {
        SameLevelReads(t, t', l);
        HintsKept(t, t', l);
      } else {
        LeafHints(t');
      }
    }
  }

  // ----- children and their levels -----

  // The nodes that the level above refers to: the level itself, or, around a hole, all
  // of it but the new right half.
  lemma ExpectedMembers(t: Tree, l: nat, hole: Hole, k: nat)
    requires l < |t.chain| && LevelOK(t, l) && HoleOK(t, hole) && k < |Expected(t, l, hole)|
    ensures Expected(t, l, hole)[k].0 in t.chain[l]
    ensures forall k' :: 0 <= k' < |Expected(t, l, hole)| && k' != k ==>
      Expected(t, l, hole)[k'].0 != Expected(t, l, hole)[k].0
  {
    ExpectedIndex(t, l, hole, k);
    forall k' | 0 <= k' < |Expected(t, l, hole)| && k' != k
      ensures Expected(t, l, hole)[k'].0 != Expected(t, l, hole)[k].0
    {
      ExpectedIndex(t, l, hole, k');
    }
  }

  // Place k of what the parents should hold, in terms of the level itself.
  lemma ExpectedIndex(t: Tree, l: nat, hole: Hole, k: nat)
    requires l < |t.chain| && HoleOK(t, hole) && k < |Expected(t, l, hole)|
    ensures var k' := if hole.HoleAt? && hole.l == l && k > hole.j then k + 1 else k;
      k' < |t.chain[l]| && Expected(t, l, hole)[k].0 == t.chain[l][k']
  {
    var c := Covers(t.nodes, t.chain[l]);
    if hole.HoleAt? && hole.l == l {
      CutIndex(c, hole.j, [(t.chain[l][hole.j], c[hole.j + 1].1)], k);
    }
  }

  lemma CutIndex(c: seq<Link>, j: nat, one: seq<Link>, k: nat)
    requires j + 2 <= |c| && |one| == 1 && k + 1 < |c|
    ensures |Cut(c, j, 2, one)| == |c| - 1
    ensures Cut(c, j, 2, one)[k] == (if k < j then c[k] else if k == j then one[0] else c[k + 1])
  {
  }

  lemma ChildMember(t: Tree, l: nat, hole: Hole, p: nat, ci: nat)
    requires l + 1 < |t.chain| && LevelOK(t, l) && LevelOK(t, l + 1) && HoleOK(t, hole) && UpOK(t, l, hole)
    requires p < |t.chain[l + 1]| && ci < |t.nodes[t.chain[l + 1][p]].children|
    ensures MemberOK(t, l, t.nodes[t.chain[l + 1][p]].children[ci])
    ensures var rows := KidRows(t.nodes, t.chain[l + 1]); var k := Offset(rows, p) + ci;
      k < |Expected(t, l, hole)| && Expected(t, l, hole)[k] == KidRow(t.nodes[t.chain[l + 1][p]])[ci]
  {
    var rows := KidRows(t.nodes, t.chain[l + 1]);
    assert MemberOK(t, l + 1, t.chain[l + 1][p]);
    FlattenIndex(rows, p, ci);
    ExpectedMembers(t, l, hole, Offset(rows, p) + ci);
    LevelMembers(t, l, t.nodes[t.chain[l + 1][p]].children[ci]);
  }

  lemma ChildrenDistinct(t: Tree, l: nat, hole: Hole, p: nat)
    requires l + 1 < |t.chain| && LevelOK(t, l) && LevelOK(t, l + 1) && HoleOK(t, hole) && UpOK(t, l, hole)
    requires p < |t.chain[l + 1]|
    ensures t.chain[l + 1][p] < |t.nodes| && Distinct(t.nodes[t.chain[l + 1][p]].children)
  {
    assert MemberOK(t, l + 1, t.chain[l + 1][p]);
    var cs := t.nodes[t.chain[l + 1][p]].children;
    forall a, b | 0 <= a < b < |cs| ensures cs[a] != cs[b] {
      ChildMember(t, l, hole, p, a);
      ChildMember(t, l, hole, p, b);
      ExpectedMembers(t, l, hole, Offset(KidRows(t.nodes, t.chain[l + 1]), p) + a);
    }
  }

  // Level l keeps its hints when only nodes of another level change theirs.
  lemma HintsElsewhere(t: Tree, t': Tree, l: nat, hole: Hole, at: nat)
    requires 0 < l < |t.chain| && LevelOK(t, l - 1) && LevelOK(t, l) && HoleOK(t, hole) && UpOK(t, l - 1, hole)
    requires SameLevel(t, t', l) && HintsOK(t, l) && l - 1 != at
    requires forall n :: 0 <= n < |t.nodes| && t.level[n] != at ==> t'.nodes[n].hint == t.nodes[n].hint
    ensures HintsOK(t', l)
  {
    forall i | 0 <= i < |t.chain[l]| ensures HintOK(t'.nodes, t'.chain[l][i]) {
      assert HintOK(t.nodes, t.chain[l][i]);
      forall ci | 0 <= ci < |t.nodes[t.chain[l][i]].children|
        ensures t.level[t.nodes[t.chain[l][i]].children[ci]] != at
      {
        ChildMember(t, l - 1, hole, i, ci);
      }
    }
  }

  // ----- splitting an inner node -----

  function InnerMid(nd: Node): nat { |nd.keys| / 2 }

  // The middle key is promoted: it becomes the left half's high key, kept by neither.
  function InnerLeft(nd: Node, r: NodeId): Node
    requires NodeOK(nd) && !nd.leaf && |nd.keys| > 0
  {
    var mid := InnerMid(nd);
    nd.(keys := nd.keys[..mid], children := nd.children[..mid + 1], right := Some(r), high := Some(nd.keys[mid]))
  }

  function InnerRight(nd: Node): Node
    requires NodeOK(nd) && !nd.leaf && |nd.keys| > 0
  {
    var mid := InnerMid(nd);
    Node(false, nd.keys[mid + 1..], [], nd.children[mid + 1..], nd.right, nd.high, None)
  }

  function Rehomed(nodes: seq<Node>, ids: seq<NodeId>, p: NodeId): seq<Node> {
    seq(|nodes|, m requires 0 <= m < |nodes| => if m in ids then nodes[m].(hint := Some(p)) else nodes[m])
  }

  function SplitInner(t: Tree, l: nat, j: nat): Tree
    requires l < |t.chain| && j < |t.chain[l]| && t.chain[l][j] < |t.nodes|
    requires var nd := t.nodes[t.chain[l][j]]; NodeOK(nd) && !nd.leaf && |nd.keys| > 0
  {
    var n, r := t.chain[l][j], |t.nodes|;
    var nd := t.nodes[n];
    t.(nodes := Rehomed(t.nodes[n := InnerLeft(nd, r)] + [InnerRight(nd)], InnerRight(nd).children, r),
       chain := t.chain[l := Cut(t.chain[l], j, 1, [n, r])], level := t.level + [l])
  }

  ghost predicate SplitInnerReady(t: Tree, l: nat, j: nat) {
    && 0 < l < |t.chain| && j < |t.chain[l]| && LevelOK(t, l) && LevelOK(t, l - 1)
    && UpOK(t, l - 1, NoHole) && HintsOK(t, l)
    && MemberOK(t, l, t.chain[l][j]) && HintOK(t.nodes, t.chain[l][j]) && |t.nodes[t.chain[l][j]].keys| > 0
  }

  // The children that move are of the level below, so no node of level l or above moves.
  lemma SplitInnerMoved(t: Tree, l: nat, j: nat, c: NodeId)
    requires SplitInnerReady(t, l, j) && c in InnerRight(t.nodes[t.chain[l][j]]).children
    ensures MemberOK(t, l - 1, c)
    ensures c !in InnerLeft(t.nodes[t.chain[l][j]], |t.nodes|).children
    ensures t.nodes[c].hint == Some(t.chain[l][j])
  {
    ChildrenDistinct(t, l - 1, NoHole, j);
    var mid := InnerMid(t.nodes[t.chain[l][j]]);
    var i := MovedIndex(t.nodes[t.chain[l][j]].children, mid + 1, c);
    ChildMember(t, l - 1, NoHole, j, i);
  }

  lemma MovedIndex(cs: seq<NodeId>, m: nat, c: NodeId) returns (i: nat)
    requires m <= |cs| && c in cs[m..] && Distinct(cs)
    ensures m <= i < |cs| && cs[i] == c && c !in cs[..m]
  {
    var moved := cs[m..];
    var k :| 0 <= k < |moved| && moved[k] == c;
    i := m + k;
  }

  // Only level l is regrouped; every other old level reads the same.
  lemma SplitInnerNodes(t: Tree, l: nat, j: nat, m: NodeId)
    requires SplitInnerReady(t, l, j) && m < |t.nodes| && m != t.chain[l][j]
    ensures SameNode(t.nodes[m], SplitInner(t, l, j).nodes[m])
    ensures t.level[m] != l - 1 ==> SplitInner(t, l, j).nodes[m] == t.nodes[m]
  {
    if m in InnerRight(t.nodes[t.chain[l][j]]).children { SplitInnerMoved(t, l, j, m); }
  }

  lemma SplitInnerEnds(t: Tree, l: nat, j: nat)
    requires SplitInnerReady(t, l, j)
    ensures var t' := SplitInner(t, l, j); var n := t.chain[l][j];
      t'.nodes[n] == InnerLeft(t.nodes[n], |t.nodes|) && t'.nodes[|t.nodes|] == InnerRight(t.nodes[n])
  {
    var n := t.chain[l][j];
    assert MemberOK(t, l, n);
    forall c | c in InnerRight(t.nodes[n]).children ensures c < |t.nodes| && c != n {
      SplitInnerMoved(t, l, j, c);
    }
  }

  lemma SplitInnerRegroups(t: Tree, l: nat, j: nat)
    requires SplitInnerReady(t, l, j) && forall l' :: 0 <= l' < |t.chain| ==> LevelOK(t, l')
    ensures Regrouped(t, SplitInner(t, l, j), l, j, 1, [t.chain[l][j], |t.nodes|])
    ensures forall l' :: 0 <= l' < |t.chain| && l' != l ==> SameLevel(t, SplitInner(t, l, j), l')
  {
    var n, r := t.chain[l][j], |t.nodes|;
    var t' := SplitInner(t, l, j);
    assert LevelOK(t, l) && MemberOK(t, l, n);
    SplitInnerEnds(t, l, j);
    forall i | 0 <= i < |t.chain[l]| ensures t.chain[l][i] < |t.nodes| { assert MemberOK(t, l, t.chain[l][i]); }
    forall i | 0 <= i < |t.chain[l]| && i != j ensures SameNode(t.nodes[t.chain[l][i]], t'.nodes[t.chain[l][i]]) {
      SplitInnerNodes(t, l, j, t.chain[l][i]);
    }
    DistinctCut(t.chain[l], j, n, r);
    assert ThreadOK(t.nodes, t.chain[l], j);
    assert MemberOK(t', l, n) && MemberOK(t', l, r);
    forall l' | 0 <= l' < |t.chain| && l' != l ensures SameLevel(t, t', l') {
      forall i | 0 <= i < |t.chain[l']|
        ensures t.chain[l'][i] < |t.nodes| && SameNode(t.nodes[t.chain[l'][i]], t'.nodes[t.chain[l'][i]])
      {
        assert LevelOK(t, l') && MemberOK(t, l', t.chain[l'][i]);
        SplitInnerNodes(t, l, j, t.chain[l'][i]);
      }
    }
  }

  lemma InnerHalves(nd: Node, r: NodeId)
    requires NodeOK(nd) && !nd.leaf && |nd.keys| > 0
    ensures KidRow(InnerLeft(nd, r)) + KidRow(InnerRight(nd)) == KidRow(nd)
  {
  }

  // Two halves with the same children, in order, as the node they came from.
  lemma HalvesRead(t: Tree, t': Tree, l: nat, j: nat, n: NodeId, r: NodeId)
    requires l < |t.chain| && j < |t.chain[l]| && n == t.chain[l][j] && n < |t.nodes| && n < |t'.nodes| &&
      r < |t'.nodes|
    requires KidRow(t'.nodes[n]) + KidRow(t'.nodes[r]) == KidRow(t.nodes[n])
    ensures Flatten(KidRows(t'.nodes, [n, r])) == Flatten(KidRows(t.nodes, t.chain[l])[j..j + 1])
  {
    assert KidRows(t'.nodes, [n, r]) == [KidRow(t'.nodes[n]), KidRow(t'.nodes[r])];
    assert KidRows(t.nodes, t.chain[l])[j..j + 1] == [KidRow(t.nodes[n])];
    FlattenTwo(KidRow(t'.nodes[n]), KidRow(t'.nodes[r]));
    FlattenOne(KidRow(t.nodes[n]));
  }

  lemma HalvesDown(t: Tree, t': Tree, l: nat, j: nat, n: NodeId, r: NodeId, hole: Hole, hole': Hole)
    requires Regrouped(t, t', l, j, 1, [n, r]) && LevelOK(t, l) && 0 < l
    requires LevelOK(t, l - 1) && SameLevel(t, t', l - 1) && UpOK(t, l - 1, hole)
    requires n == t.chain[l][j] && n < |t.nodes| && n < |t'.nodes| && r < |t'.nodes|
    requires KidRow(t'.nodes[n]) + KidRow(t'.nodes[r]) == KidRow(t.nodes[n])
    requires (hole.HoleAt? ==> hole.l != l - 1) && (hole'.HoleAt? ==> hole'.l != l - 1)
    ensures UpOK(t', l - 1, hole')
  {
    hide LevelOK, SameLevel, UpOK, KidRow, KidRows, Flatten;
    HalvesRead(t, t', l, j, n, r);
    RegroupedDown(t, t', l, j, 1, [n, r], hole, hole');
  }

  lemma SplitInnerKids(t: Tree, l: nat, j: nat)
    requires SplitInnerReady(t, l, j) && forall l' :: 0 <= l' < |t.chain| ==> LevelOK(t, l')
    ensures UpOK(SplitInner(t, l, j), l - 1, HoleAt(l, j))
  {
    SplitInnerRegroups(t, l, j);
    SplitInnerEnds(t, l, j);
    InnerHalves(t.nodes[t.chain[l][j]], |t.nodes|);
    HalvesDown(t, SplitInner(t, l, j), l, j, t.chain[l][j], |t.nodes|, NoHole, HoleAt(l, j));
  }

  lemma SplitInnerHints(t: Tree, l: nat, j: nat)
    requires SplitInnerReady(t, l, j) && forall l' :: 0 <= l' < |t.chain| ==> LevelOK(t, l')
    ensures HintsOK(SplitInner(t, l, j), l)
  {
    var n, r := t.chain[l][j], |t.nodes|;
    var t' := SplitInner(t, l, j);
    SplitInnerRegroups(t, l, j);
    SplitInnerEnds(t, l, j);
    assert HintOK(t.nodes, n);
    var moved := InnerRight(t.nodes[n]).children;
    forall c | c in moved ensures c < |t.nodes| && t'.nodes[c].hint == Some(r) { SplitInnerMoved(t, l, j, c); }
    forall c | c in InnerLeft(t.nodes[n], r).children ensures c !in moved {
      if c in moved { SplitInnerMoved(t, l, j, c); assert false; }
    }
    assert HintOK(t'.nodes, n) && HintOK(t'.nodes, r);
    forall i, c | 0 <= i < |t.chain[l]| && i != j && c in t.nodes[t.chain[l][i]].children
      ensures c < |t.nodes| && t'.nodes[c].hint == t.nodes[c].hint
    {
      assert HintOK(t.nodes, t.chain[l][i]);
      if c in moved { SplitInnerMoved(t, l, j, c); assert false; }
    }
    RegroupedHints(t, t', l, j, 1, [n, r]);
  }

  lemma SplitInnerLevel(t: Tree, l: nat, j: nat, l': nat)
    requires SplitInnerReady(t, l, j) && l' < |t.chain| && forall m :: 0 <= m < |t.chain| ==> LevelOK(t, m)
    requires HintsOK(t, l') && (l' > 0 ==> UpOK(t, l' - 1, NoHole))
    ensures LevelOK(SplitInner(t, l, j), l') && HintsOK(SplitInner(t, l, j), l')
  {
    var t' := SplitInner(t, l, j);
    SplitInnerRegroups(t, l, j);
    if l' == l {
      SplitInnerHints(t, l, j);
      RegroupedLevel(t, t', l, j, 1, [t.chain[l][j], |t.nodes|]);
    } else {
      SameLevelReads(t, t', l');
      if l' == 0 { LeafHints(t'); } else { SplitInnerHintsElsewhere(t, l, j, l'); }
    }
  }

  lemma SplitInnerHintsElsewhere(t: Tree, l: nat, j: nat, l': nat)
    requires SplitInnerReady(t, l, j) && 0 < l' < |t.chain| && l' != l
    requires LevelOK(t, l' - 1) && LevelOK(t, l') && UpOK(t, l' - 1, NoHole) && HintsOK(t, l')
    requires SameLevel(t, SplitInner(t, l, j), l')
    ensures HintsOK(SplitInner(t, l, j), l')
  {
    var t' := SplitInner(t, l, j);
    forall m | 0 <= m < |t.nodes| && t.level[m] != l - 1 ensures t'.nodes[m].hint == t.nodes[m].hint {
      if m == t.chain[l][j] { SplitInnerEnds(t, l, j); } else { SplitInnerNodes(t, l, j, m); }
    }
    HintsElsewhere(t, t', l', NoHole, l - 1);
  }

  lemma SplitInnerUp(t: Tree, l: nat, j: nat, l': nat)
    requires SplitInnerReady(t, l, j) && l' + 1 < |t.chain| && forall m :: 0 <= m < |t.chain| ==> LevelOK(t, m)
    requires UpOK(t, l', NoHole)
    ensures UpOK(SplitInner(t, l, j), l', HoleAt(l, j))
  {
    hide LevelOK, UpOK, HintsOK, SplitInner, Regrouped;
    SplitInnerRegroups(t, l, j);
    if l' == l {
      SplitUp(t, SplitInner(t, l, j), l, j, t.chain[l][j], |t.nodes|);
    } else if l' + 1 == l {
      SplitInnerKids(t, l, j);
    } else {
      SameUp(t, SplitInner(t, l, j), l', NoHole, HoleAt(l, j));
    }
  }

  lemma SplitInnerShape(t: Tree, l: nat, j: nat)
    requires ShapeOK(t, NoHole) && SplitInnerReady(t, l, j)
    ensures var t' := SplitInner(t, l, j); ShapeOK(t', HoleAt(l, j)) && Entries(t') == Entries(t)
  {
    hide LevelOK, HintsOK, UpOK, LeavesOK, Entries, TopOK, SplitInner, HoleOK;
    var t' := SplitInner(t, l, j);
    assert forall m :: 0 <= m < |t.chain| ==> LevelOK(t, m);
    SplitInnerEntries(t, l, j);
    RootNotMoved(t, l, j);
    forall l' | 0 <= l' < |t.chain| ensures LevelOK(t', l') && HintsOK(t', l') {
      assert HintsOK(t, l') && (l' > 0 ==> UpOK(t, l' - 1, NoHole));
      SplitInnerLevel(t, l, j, l');
    }
    forall l' | 0 <= l' < |t.chain| - 1 ensures UpOK(t', l', HoleAt(l, j)) {
      assert UpOK(t, l', NoHole);
      SplitInnerUp(t, l, j, l');
    }
  }

  lemma SplitInnerEntries(t: Tree, l: nat, j: nat)
    requires SplitInnerReady(t, l, j) && LevelOK(t, 0) && LeavesOK(t)
    requires forall m :: 0 <= m < |t.chain| ==> LevelOK(t, m)
    ensures var t' := SplitInner(t, l, j);
      && |t'.chain| == |t.chain| && HoleOK(t', HoleAt(l, j))
      && LevelOK(t', 0) && LeavesOK(t') && Entries(t') == Entries(t)
  {
    SplitInnerRegroups(t, l, j);
    SameLeaves(t, SplitInner(t, l, j));
  }

  lemma RootNotMoved(t: Tree, l: nat, j: nat)
    requires |t.chain| > 0 && TopOK(t, NoHole) && LevelOK(t, Top(t)) && SplitInnerReady(t, l, j)
    ensures TopOK(SplitInner(t, l, j), HoleAt(l, j))
  {
    var t' := SplitInner(t, l, j);
    RootHintKept(t, l, j);
    assert Top(t') == Top(t) && t'.root == t.root;
    if l == Top(t) {
      assert j == 0 && t'.chain[l] == [t.root, |t.nodes|];
    } else {
      assert t'.chain[Top(t)] == t.chain[Top(t)];
    }
  }

  lemma RootHintKept(t: Tree, l: nat, j: nat)
    requires |t.chain| > 0 && TopOK(t, NoHole) && LevelOK(t, Top(t)) && SplitInnerReady(t, l, j)
    ensures SplitInner(t, l, j).nodes[t.root].hint == t.nodes[t.root].hint
  {
    SplitInnerEnds(t, l, j);
    assert MemberOK(t, Top(t), t.chain[Top(t)][0]);
    if t.root != t.chain[l][j] { SplitInnerNodes(t, l, j, t.root); }
  }

  // ----- changes that keep every right link and high key -----

  ghost predicate SameOutline(t: Tree, t': Tree, l: nat) {
    && l < |t.chain| && l < |t'.chain| && t'.chain[l] == t.chain[l]
    && |t.level| == |t.nodes| == |t'.nodes| && t'.level == t.level
    && forall i :: 0 <= i < |t.chain[l]| ==>
         && t.chain[l][i] < |t.nodes|
         && var a, b := t.nodes[t.chain[l][i]], t'.nodes[t.chain[l][i]];
         && b.leaf == a.leaf && b.right == a.right && b.high == a.high && NodeOK(b)
  }

  lemma SameOutlineReads(t: Tree, t': Tree, l: nat)
    requires SameOutline(t, t', l) && LevelOK(t, l)
    ensures LevelOK(t', l) && Covers(t'.nodes, t'.chain[l]) == Covers(t.nodes, t.chain[l])
  {
    forall i | 0 <= i < |t.chain[l]|
      ensures MemberOK(t', l, t.chain[l][i]) && ThreadOK(t'.nodes, t.chain[l], i)
    {
      assert MemberOK(t, l, t.chain[l][i]) && ThreadOK(t.nodes, t.chain[l], i);
    }
    assert Covers(t'.nodes, t'.chain[l]) == Covers(t.nodes, t.chain[l]);
  }

  // Of the nodes of a level, at most the one at j changed more than its hint.
  ghost predicate OthersSame(nodes: seq<Node>, nodes': seq<Node>, ids: seq<NodeId>, j: nat) {
    && j < |ids| && |nodes| == |nodes'|
    && forall i :: 0 <= i < |ids| ==> ids[i] < |nodes| && (i != j ==> SameNode(nodes[ids[i]], nodes'[ids[i]]))
  }

  // Changing one node of a level changes one row.
  lemma OneRow(nodes: seq<Node>, nodes': seq<Node>, ids: seq<NodeId>, j: nat)
    requires OthersSame(nodes, nodes', ids, j)
    ensures KidRows(nodes', ids) == KidRows(nodes, ids)[j := KidRow(nodes'[ids[j]])]
    ensures EntryRows(nodes', ids) == EntryRows(nodes, ids)[j := EntryRow(nodes'[ids[j]])]
  {
    assert KidRows(nodes', ids) == KidRows(nodes, ids)[j := KidRow(nodes'[ids[j]])];
    assert EntryRows(nodes', ids) == EntryRows(nodes, ids)[j := EntryRow(nodes'[ids[j]])];
  }

  // ----- an entry written or erased -----

  function Rewrite(t: Tree, n: NodeId, nd: Node): Tree
    requires n < |t.nodes|
  {
    t.(nodes := t.nodes[n := nd])
  }

  // A leaf rewritten within its bounds leaves the rest of the shape alone.
  lemma RewriteLevels(t: Tree, j: nat, nd: Node, l: nat)
    requires LeafAt(t, j) && l < |t.chain| && LevelOK(t, l)
    requires nd.leaf && NodeOK(nd) && nd == t.nodes[t.chain[0][j]].(keys := nd.keys, values := nd.values)
    ensures var t' := Rewrite(t, t.chain[0][j], nd);
      && LevelOK(t', l) && Covers(t'.nodes, t'.chain[l]) == Covers(t.nodes, t.chain[l])
      && (l > 0 ==> SameLevel(t, t', l))
  {
    var n := t.chain[0][j];
    var t' := Rewrite(t, n, nd);
    forall i | 0 <= i < |t.chain[l]|
      ensures t.chain[l][i] < |t.nodes| && NodeOK(t'.nodes[t.chain[l][i]]) && (l > 0 ==> t.chain[l][i] != n)
    {
      assert MemberOK(t, l, t.chain[l][i]);
    }
    if l == 0 { SameOutlineReads(t, t', 0); } else { SameLevelReads(t, t', l); }
  }

  lemma RewriteRead(t: Tree, j: nat, nd: Node)
    requires LeafAt(t, j) && LeavesOK(t)
    requires nd.leaf && NodeOK(nd) && nd == t.nodes[t.chain[0][j]].(keys := nd.keys, values := nd.values)
    requires KeysWithin(LowOf(t.nodes, t.chain[0], j), nd.keys, nd.high)
    ensures var t' := Rewrite(t, t.chain[0][j], nd);
      && LevelOK(t', 0) && LeavesOK(t')
      && Entries(t') == Flatten(EntryRows(t.nodes, t.chain[0])[j := EntryRow(nd)])
  {
    var t' := Rewrite(t, t.chain[0][j], nd);
    RewriteLevels(t, j, nd, 0);
    forall i | 0 <= i < |t.chain[0]| ensures MemberOK(t', 0, t.chain[0][i]) && LeafOK(t'.nodes, t'.chain[0], i) {
      assert MemberOK(t, 0, t.chain[0][i]) && LeafOK(t.nodes, t.chain[0], i);
    }
    OneRow(t.nodes, t'.nodes, t.chain[0], j);
  }

  lemma RewriteUp(t: Tree, hole: Hole, j: nat, nd: Node, l: nat)
    requires LeafAt(t, j) && l + 1 < |t.chain| && LevelOK(t, l) && LevelOK(t, l + 1) && UpOK(t, l, hole)
    requires nd.leaf && NodeOK(nd) && nd == t.nodes[t.chain[0][j]].(keys := nd.keys, values := nd.values)
    ensures UpOK(Rewrite(t, t.chain[0][j], nd), l, hole)
  {
    RewriteLevels(t, j, nd, l);
    RewriteLevels(t, j, nd, l + 1);
    SameLevelReads(t, Rewrite(t, t.chain[0][j], nd), l + 1);
  }

  lemma RewriteLeaf(t: Tree, hole: Hole, j: nat, nd: Node)
    requires ShapeOK(t, hole) && LeafAt(t, j)
    requires nd.leaf && NodeOK(nd) && nd == t.nodes[t.chain[0][j]].(keys := nd.keys, values := nd.values)
    requires KeysWithin(LowOf(t.nodes, t.chain[0], j), nd.keys, nd.high)
    ensures var t' := Rewrite(t, t.chain[0][j], nd);
      && ShapeOK(t', hole)
      && Entries(t') == Flatten(EntryRows(t.nodes, t.chain[0])[j := EntryRow(nd)])
  {
    hide LevelOK, HintsOK, UpOK, LeavesOK, Entries, Flatten, KeysWithin, EntryRow;
    var t' := Rewrite(t, t.chain[0][j], nd);
    RewriteRead(t, j, nd);
    forall l | 0 <= l < |t.chain| ensures LevelOK(t', l) && HintsOK(t', l) {
      assert LevelOK(t, l) && HintsOK(t, l);
      RewriteLevels(t, j, nd, l);
      HintsKept(t, t', l);
    }
    forall l | 0 <= l < |t.chain| - 1 ensures UpOK(t', l, hole) {
      assert LevelOK(t, l) && LevelOK(t, l + 1) && UpOK(t, l, hole);
      RewriteUp(t, hole, j, nd, l);
    }
  }

  lemma WriteWithin(low: Option<Key>, nd: Node, key: Key, id: InternalId)
    requires NodeOK(nd) && nd.leaf && KeysWithin(low, nd.keys, nd.high) && AtLeast(low, key) && AtMost(key, nd.high)
    ensures KeysWithin(low, WithEntry(nd, key, id).keys, nd.high)
    ensures EntryRow(WithEntry(nd, key, id)) == Cut(EntryRow(nd), LowerBound(nd.keys, key), 0, [(key, id)])
  {
    SortedInsert(nd.keys, key);
    InsertKeepsMembers(nd.keys, LowerBound(nd.keys, key), key);
    WriteRow(nd, LowerBound(nd.keys, key), key, id);
  }

  lemma WriteRow(nd: Node, pos: nat, key: Key, id: InternalId)
    requires NodeOK(nd) && nd.leaf && pos <= |nd.keys|
    ensures EntryRow(nd.(keys := InsertAt(nd.keys, pos, key), values := InsertAt(nd.values, pos, id)))
      == Cut(EntryRow(nd), pos, 0, [(key, id)])
  {
  }

  lemma WriteLeafShape(t: Tree, j: nat, key: Key, id: InternalId)
    requires ShapeOK(t, NoHole) && LeafAt(t, j) && MemberOK(t, 0, t.chain[0][j])
    requires AtLeast(LowOf(t.nodes, t.chain[0], j), key) && AtMost(key, t.nodes[t.chain[0][j]].high)
    ensures var n := t.chain[0][j]; var t' := Rewrite(t, n, WithEntry(t.nodes[n], key, id));
      && ShapeOK(t', NoHole)
      && var k := Offset(EntryRows(t.nodes, t.chain[0]), j) + LowerBound(t.nodes[n].keys, key);
      && k <= |Entries(t)| && Entries(t') == InsertAt(Entries(t), k, (key, id))
  {
    var n := t.chain[0][j];
    LeafWithin(t, j);
    WriteWithin(LowOf(t.nodes, t.chain[0], j), t.nodes[n], key, id);
    RewriteLeaf(t, NoHole, j, WithEntry(t.nodes[n], key, id));
    WriteFlat(t, j, LowerBound(t.nodes[n].keys, key), (key, id), WithEntry(t.nodes[n], key, id));
  }

  lemma LeafWithin(t: Tree, j: nat)
    requires LeafAt(t, j) && LeavesOK(t)
    ensures KeysWithin(LowOf(t.nodes, t.chain[0], j), t.nodes[t.chain[0][j]].keys, t.nodes[t.chain[0][j]].high)
  {
    assert LeafOK(t.nodes, t.chain[0], j);
  }

  lemma WriteFlat(t: Tree, j: nat, pos: nat, e: Pair, nd: Node)
    requires LeafAt(t, j) && pos <= |EntryRow(t.nodes[t.chain[0][j]])|
    requires EntryRow(nd) == Cut(EntryRow(t.nodes[t.chain[0][j]]), pos, 0, [e])
    ensures var rows := EntryRows(t.nodes, t.chain[0]); var k := Offset(rows, j) + pos;
      k <= |Entries(t)| && Flatten(rows[j := EntryRow(nd)]) == InsertAt(Entries(t), k, e)
  {
    FlattenInsert(EntryRows(t.nodes, t.chain[0]), j, pos, e);
  }

  lemma EraseWithin(low: Option<Key>, nd: Node, pos: nat)
    requires NodeOK(nd) && nd.leaf && KeysWithin(low, nd.keys, nd.high) && pos < |nd.keys|
    ensures KeysWithin(low, WithoutEntry(nd, pos).keys, nd.high)
    ensures EntryRow(WithoutEntry(nd, pos)) == Cut(EntryRow(nd), pos, 1, [])
  {
    var ks := WithoutEntry(nd, pos).keys;
    forall i | 0 <= i < |ks| ensures ks[i] == nd.keys[if i < pos then i else i + 1] {}
  }

  lemma EraseFlat(t: Tree, j: nat, pos: nat, nd: Node)
    requires LeafAt(t, j) && pos < |t.nodes[t.chain[0][j]].keys|
    requires EntryRow(nd) == Cut(EntryRow(t.nodes[t.chain[0][j]]), pos, 1, [])
    ensures var rows := EntryRows(t.nodes, t.chain[0]); var k := Offset(rows, j) + pos;
      && k < |Entries(t)| && Entries(t)[k] == EntryRow(t.nodes[t.chain[0][j]])[pos]
      && Flatten(rows[j := EntryRow(nd)]) == RemoveAt(Entries(t), k)
  {
    FlattenErase(EntryRows(t.nodes, t.chain[0]), j, pos);
  }

  lemma EraseLeafShape(t: Tree, j: nat, pos: nat)
    requires ShapeOK(t, NoHole) && LeafAt(t, j) && pos < |t.nodes[t.chain[0][j]].keys|
    ensures var n := t.chain[0][j]; var t' := Rewrite(t, n, WithoutEntry(t.nodes[n], pos));
      && ShapeOK(t', NoHole)
      && var k := Offset(EntryRows(t.nodes, t.chain[0]), j) + pos;
      && k < |Entries(t)| && Entries(t)[k] == EntryRow(t.nodes[n])[pos]
      && Entries(t') == RemoveAt(Entries(t), k)
  {
    var n := t.chain[0][j];
    LeafWithin(t, j);
    EraseWithin(LowOf(t.nodes, t.chain[0], j), t.nodes[n], pos);
    RewriteLeaf(t, NoHole, j, WithoutEntry(t.nodes[n], pos));
    EraseFlat(t, j, pos, WithoutEntry(t.nodes[n], pos));
  }

  // ----- the splice -----

  function Spliced(nd: Node, ci: nat, sep: Key, r: NodeId): Node
    requires NodeOK(nd) && !nd.leaf && ci < |nd.children|
  {
    nd.(keys := InsertAt(nd.keys, ci, sep), children := InsertAt(nd.children, ci + 1, r))
  }

  function Splice(t: Tree, p: NodeId, ci: nat, sep: Key, r: NodeId): Tree
    requires p < |t.nodes| && NodeOK(t.nodes[p]) && !t.nodes[p].leaf && ci < |t.nodes[p].children| && r < |t.nodes|
  {
    var nodes' := t.nodes[p := Spliced(t.nodes[p], ci, sep, r)];
    t.(nodes := nodes'[r := nodes'[r].(hint := Some(p))])
  }

  ghost predicate SpliceReady(t: Tree, l: nat, j: nat, p: nat, ci: nat) {
    && l + 1 < |t.chain| && j + 1 < |t.chain[l]| && p < |t.chain[l + 1]|
    && LevelOK(t, l) && LevelOK(t, l + 1) && UpOK(t, l, HoleAt(l, j)) && HintsOK(t, l + 1)
    && MemberOK(t, l + 1, t.chain[l + 1][p]) && MemberOK(t, l, t.chain[l][j]) && MemberOK(t, l, t.chain[l][j + 1])
    && ci < |t.nodes[t.chain[l + 1][p]].children|
    && t.nodes[t.chain[l + 1][p]].children[ci] == t.chain[l][j]
    && t.nodes[t.chain[l][j]].high.Some?
  }

  function SpliceAt(t: Tree, l: nat, j: nat, p: nat, ci: nat): Tree
    requires SpliceReady(t, l, j, p, ci)
  {
    Splice(t, t.chain[l + 1][p], ci, t.nodes[t.chain[l][j]].high.value, t.chain[l][j + 1])
  }

  // The child's slot in its parent is the hole's place in the level.
  lemma SpliceSlot(t: Tree, l: nat, j: nat, p: nat, ci: nat)
    requires SpliceReady(t, l, j, p, ci)
    ensures p < |KidRows(t.nodes, t.chain[l + 1])| && ci < |KidRows(t.nodes, t.chain[l + 1])[p]|
    ensures Offset(KidRows(t.nodes, t.chain[l + 1]), p) + ci == j
    ensures KidRow(t.nodes[t.chain[l + 1][p]])[ci] == (t.chain[l][j], t.nodes[t.chain[l][j + 1]].high)
  {
    ChildMember(t, l, HoleAt(l, j), p, ci);
    var e := Expected(t, l, HoleAt(l, j));
    assert e[j] == (t.chain[l][j], t.nodes[t.chain[l][j + 1]].high);
    ExpectedMembers(t, l, HoleAt(l, j), j);
  }

  lemma SplicedRow(nd: Node, ci: nat, sep: Key, r: NodeId)
    requires NodeOK(nd) && !nd.leaf && ci < |nd.children|
    ensures KidRow(Spliced(nd, ci, sep, r)) ==
      Cut(KidRow(nd), ci, 1, [(nd.children[ci], Some(sep)), (r, KidRow(nd)[ci].1)])
  {
    var a, b := KidRow(Spliced(nd, ci, sep, r)),
                Cut(KidRow(nd), ci, 1, [(nd.children[ci], Some(sep)), (r, KidRow(nd)[ci].1)]);
    assert |a| == |b|;
    forall i | 0 <= i < |a| ensures a[i] == b[i] {}
  }

  lemma SpliceOutline(t: Tree, l: nat, j: nat, p: nat, ci: nat)
    requires SpliceReady(t, l, j, p, ci)
    ensures var t' := SpliceAt(t, l, j, p, ci); SameLevel(t, t', l) && SameOutline(t, t', l + 1)
    ensures OthersSame(t.nodes, SpliceAt(t, l, j, p, ci).nodes, t.chain[l + 1], p)
    ensures SpliceAt(t, l, j, p, ci).nodes[t.chain[l + 1][p]] ==
      Spliced(t.nodes[t.chain[l + 1][p]], ci, t.nodes[t.chain[l][j]].high.value, t.chain[l][j + 1])
  {
    var pn, r := t.chain[l + 1][p], t.chain[l][j + 1];
    var t' := SpliceAt(t, l, j, p, ci);
    var ids, ps := t.chain[l], t.chain[l + 1];
    forall i | 0 <= i < |ids| ensures ids[i] < |t.nodes| && ids[i] != pn { assert MemberOK(t, l, ids[i]); }
    forall i | 0 <= i < |ps| ensures ps[i] < |t.nodes| && ps[i] != r && NodeOK(t'.nodes[ps[i]]) {
      assert MemberOK(t, l + 1, ps[i]);
    }
  }

  lemma SpliceRows(t: Tree, l: nat, j: nat, p: nat, ci: nat)
    requires SpliceReady(t, l, j, p, ci)
    ensures |KidRows(t.nodes, t.chain[l + 1])| == |t.chain[l + 1]|
    ensures var rows := KidRows(t.nodes, t.chain[l + 1]); var c, r := t.chain[l][j], t.chain[l][j + 1];
      KidRows(SpliceAt(t, l, j, p, ci).nodes, t.chain[l + 1])
      == rows[p := Cut(rows[p], ci, 1, [(c, t.nodes[c].high), (r, t.nodes[r].high)])]
  {
    SpliceOutline(t, l, j, p, ci);
    OneRow(t.nodes, SpliceAt(t, l, j, p, ci).nodes, t.chain[l + 1], p);
    SplicedRow(t.nodes[t.chain[l + 1][p]], ci, t.nodes[t.chain[l][j]].high.value, t.chain[l][j + 1]);
    SpliceSlot(t, l, j, p, ci);
  }

  lemma SpliceKids(t: Tree, l: nat, j: nat, p: nat, ci: nat)
    requires SpliceReady(t, l, j, p, ci)
    ensures var t' := SpliceAt(t, l, j, p, ci); SameLevel(t, t', l) && SameOutline(t, t', l + 1) && UpOK(t', l, NoHole)
  {
    SpliceOutline(t, l, j, p, ci);
    SpliceReads(t, l, j, p, ci);
    SpliceFlat(t, l, j, p, ci);
    SpliceFills(t, l, j);
  }

  lemma SpliceFlat(t: Tree, l: nat, j: nat, p: nat, ci: nat)
    requires SpliceReady(t, l, j, p, ci)
    ensures var c, r := t.chain[l][j], t.chain[l][j + 1];
      Flatten(KidRows(SpliceAt(t, l, j, p, ci).nodes, t.chain[l + 1]))
      == Cut(Expected(t, l, HoleAt(l, j)), j, 1, [(c, t.nodes[c].high), (r, t.nodes[r].high)])
  {
    hide KidRows, Flatten, Offset, SpliceAt, KidRow, Covers, LevelOK, HintsOK, Expected;
    SpliceRows(t, l, j, p, ci);
    SpliceSlot(t, l, j, p, ci);
    var c, r := t.chain[l][j], t.chain[l][j + 1];
    FlattenCut(KidRows(t.nodes, t.chain[l + 1]), p, ci, 1, [(c, t.nodes[c].high), (r, t.nodes[r].high)]);
  }

  lemma SpliceReads(t: Tree, l: nat, j: nat, p: nat, ci: nat)
    requires SpliceReady(t, l, j, p, ci)
    ensures var t' := SpliceAt(t, l, j, p, ci);
      t'.chain == t.chain && Expected(t', l, NoHole) == Covers(t.nodes, t.chain[l])
  {
    SpliceOutline(t, l, j, p, ci);
    SameLevelReads(t, SpliceAt(t, l, j, p, ci), l);
  }

  lemma SpliceFills(t: Tree, l: nat, j: nat)
    requires l < |t.chain| && LevelOK(t, l) && j + 1 < |t.chain[l]|
    requires MemberOK(t, l, t.chain[l][j]) && MemberOK(t, l, t.chain[l][j + 1])
    ensures var c, r := t.chain[l][j], t.chain[l][j + 1];
      Cut(Expected(t, l, HoleAt(l, j)), j, 1, [(c, t.nodes[c].high), (r, t.nodes[r].high)])
      == Covers(t.nodes, t.chain[l])
  {
    var c := Covers(t.nodes, t.chain[l]);
    CutTwice(c, j, [(t.chain[l][j], c[j + 1].1)], c[j..j + 2]);
    assert c[j..j + 2] == [c[j], c[j + 1]];
  }

  lemma CutTwice(c: seq<Link>, j: nat, one: seq<Link>, two: seq<Link>)
    requires j + 2 <= |c| && |one| == 1 && two == c[j..j + 2]
    ensures Cut(Cut(c, j, 2, one), j, 1, two) == c
  {
  }

  lemma SpliceHintAt(t: Tree, l: nat, j: nat, p: nat, ci: nat, i: nat)
    requires SpliceReady(t, l, j, p, ci) && i < |t.chain[l + 1]|
    ensures HintOK(SpliceAt(t, l, j, p, ci).nodes, t.chain[l + 1][i])
  {
    var q := t.chain[l + 1][i];
    var t' := SpliceAt(t, l, j, p, ci);
    SpliceOutline(t, l, j, p, ci);
    assert HintOK(t.nodes, q);
    forall k | 0 <= k < |t.nodes[q].children| ensures t.nodes[q].children[k] != t.chain[l][j + 1] {
      SpliceFresh(t, l, j, p, ci, i, k);
    }
    forall k | 0 <= k < |t'.nodes[q].children|
      ensures t'.nodes[q].children[k] < |t.nodes| && t'.nodes[t'.nodes[q].children[k]].hint == Some(q)
    {
      if i == p && k > ci + 1 { assert t'.nodes[q].children[k] == t.nodes[q].children[k - 1]; }
    }
  }

  // The new right half is nobody's child yet.
  lemma SpliceFresh(t: Tree, l: nat, j: nat, p: nat, ci: nat, i: nat, k: nat)
    requires SpliceReady(t, l, j, p, ci) && i < |t.chain[l + 1]| && t.chain[l + 1][i] < |t.nodes|
    requires k < |t.nodes[t.chain[l + 1][i]].children|
    ensures t.nodes[t.chain[l + 1][i]].children[k] != t.chain[l][j + 1]
  {
    ChildMember(t, l, HoleAt(l, j), i, k);
    var e := Offset(KidRows(t.nodes, t.chain[l + 1]), i) + k;
    ExpectedIndex(t, l, HoleAt(l, j), e);
  }

  lemma SpliceHints(t: Tree, l: nat, j: nat, p: nat, ci: nat)
    requires SpliceReady(t, l, j, p, ci)
    ensures HintsOK(SpliceAt(t, l, j, p, ci), l + 1)
  {
    var ps := t.chain[l + 1];
    forall i | 0 <= i < |ps| ensures HintOK(SpliceAt(t, l, j, p, ci).nodes, ps[i]) {
      SpliceHintAt(t, l, j, p, ci, i);
    }
  }

  lemma SpliceLevels(t: Tree, l: nat, j: nat, p: nat, ci: nat, l': nat)
    requires SpliceReady(t, l, j, p, ci) && l' < |t.chain| && LevelOK(t, l')
    ensures var t' := SpliceAt(t, l, j, p, ci);
      LevelOK(t', l') && Covers(t'.nodes, t'.chain[l']) == Covers(t.nodes, t.chain[l'])
    ensures l' != l + 1 ==> SameLevel(t, SpliceAt(t, l, j, p, ci), l')
  {
    var t' := SpliceAt(t, l, j, p, ci);
    SpliceKids(t, l, j, p, ci);
    if l' == l + 1 {
      SameOutlineReads(t, t', l');
    } else {
      forall i | 0 <= i < |t.chain[l']| ensures t.chain[l'][i] < |t.nodes| && t.chain[l'][i] != t.chain[l + 1][p] {
        assert MemberOK(t, l', t.chain[l'][i]);
      }
      SameLevelReads(t, t', l');
    }
  }

  lemma SpliceUps(t: Tree, l: nat, j: nat, p: nat, ci: nat, l': nat)
    requires SpliceReady(t, l, j, p, ci) && l' + 1 < |t.chain|
    requires LevelOK(t, l') && LevelOK(t, l' + 1) && UpOK(t, l', HoleAt(l, j))
    ensures UpOK(SpliceAt(t, l, j, p, ci), l', NoHole)
  {
    hide LevelOK, Flatten, KidRows, Covers;
    var t' := SpliceAt(t, l, j, p, ci);
    SpliceLevels(t, l, j, p, ci, l');
    SpliceLevels(t, l, j, p, ci, l' + 1);
    if l' == l { SpliceKids(t, l, j, p, ci); } else { SameLevelReads(t, t', l' + 1); }
  }

  lemma SpliceHintsElsewhere(t: Tree, l: nat, j: nat, p: nat, ci: nat, l': nat)
    requires SpliceReady(t, l, j, p, ci) && 0 < l' < |t.chain| && l' != l + 1
    requires LevelOK(t, l') && HintsOK(t, l') && LevelOK(t, l' - 1) && UpOK(t, l' - 1, HoleAt(l, j))
    ensures HintsOK(SpliceAt(t, l, j, p, ci), l')
  {
    SpliceLevels(t, l, j, p, ci, l');
    HintsElsewhere(t, SpliceAt(t, l, j, p, ci), l', HoleAt(l, j), l);
  }

  lemma SpliceHintsAt(t: Tree, l: nat, j: nat, p: nat, ci: nat, l': nat)
    requires ShapeOK(t, HoleAt(l, j)) && SpliceReady(t, l, j, p, ci) && l' < |t.chain|
    requires LevelOK(SpliceAt(t, l, j, p, ci), l')
    ensures HintsOK(SpliceAt(t, l, j, p, ci), l')
  {
    if l' == 0 {
      LeafHints(SpliceAt(t, l, j, p, ci));
    } else if l' == l + 1 {
      SpliceHints(t, l, j, p, ci);
    } else {
      assert LevelOK(t, l') && HintsOK(t, l') && LevelOK(t, l' - 1) && UpOK(t, l' - 1, HoleAt(l, j));
      SpliceHintsElsewhere(t, l, j, p, ci, l');
    }
  }

  lemma SpliceTop(t: Tree, l: nat, j: nat, p: nat, ci: nat)
    requires SpliceReady(t, l, j, p, ci) && LevelOK(t, Top(t)) && TopOK(t, HoleAt(l, j))
    ensures var t' := SpliceAt(t, l, j, p, ci); TopOK(t', NoHole) && HoleOK(t', NoHole) && |t'.chain| == |t.chain|
  {
    assert MemberOK(t, Top(t), t.chain[Top(t)][0]);
  }

  lemma SpliceShape(t: Tree, l: nat, j: nat, p: nat, ci: nat)
    requires ShapeOK(t, HoleAt(l, j)) && SpliceReady(t, l, j, p, ci)
    ensures var t' := SpliceAt(t, l, j, p, ci); ShapeOK(t', NoHole) && Entries(t') == Entries(t)
  {
    hide LevelOK, HintsOK, UpOK, LeavesOK, Entries, SameLevel, TopOK, SpliceReady, HoleOK, SpliceAt;
    var t' := SpliceAt(t, l, j, p, ci);
    assert LevelOK(t, 0) && LevelOK(t, Top(t));
    SpliceTop(t, l, j, p, ci);
    SpliceEntries(t, l, j, p, ci);
    forall l' | 0 <= l' < |t.chain| ensures LevelOK(t', l') && HintsOK(t', l') {
      assert LevelOK(t, l');
      SpliceLevels(t, l, j, p, ci, l');
      SpliceHintsAt(t, l, j, p, ci, l');
    }
    forall l' | 0 <= l' < |t.chain| - 1 ensures UpOK(t', l', NoHole) {
      assert LevelOK(t, l') && LevelOK(t, l' + 1) && UpOK(t, l', HoleAt(l, j));
      SpliceUps(t, l, j, p, ci, l');
    }
  }

  lemma SpliceEntries(t: Tree, l: nat, j: nat, p: nat, ci: nat)
    requires SpliceReady(t, l, j, p, ci) && LevelOK(t, 0) && LeavesOK(t)
    ensures var t' := SpliceAt(t, l, j, p, ci); LevelOK(t', 0) && LeavesOK(t') && Entries(t') == Entries(t)
  {
    SpliceLevels(t, l, j, p, ci, 0);
    SameLeaves(t, SpliceAt(t, l, j, p, ci));
  }

  // ----- a new root -----

  function GrowRoot(t: Tree): Tree
    requires |t.chain| > 0 && |t.chain[Top(t)]| == 2
    requires t.chain[Top(t)][0] < |t.nodes| && t.nodes[t.chain[Top(t)][0]].high.Some?
  {
    var kids := t.chain[Top(t)];
    var top := |t.nodes|;
    var nd := Node(false, [t.nodes[kids[0]].high.value], [], kids, None, None, None);
    Tree(Rehomed(t.nodes + [nd], kids, top), top, t.chain + [[top]], t.level + [|t.chain|])
  }

  lemma GrowRootLevels(t: Tree, l: nat)
    requires l < |t.chain| && LevelOK(t, l) && LevelOK(t, Top(t)) && |t.chain[Top(t)]| == 2
    requires t.chain[Top(t)][0] < |t.nodes| && t.nodes[t.chain[Top(t)][0]].high.Some?
    ensures SameLevel(t, GrowRoot(t), l)
  {
    forall i | 0 <= i < |t.chain[l]| ensures t.chain[l][i] < |t.nodes| { assert MemberOK(t, l, t.chain[l][i]); }
    assert MemberOK(t, l, t.chain[l][0]);
  }

  lemma GrowRootReady(t: Tree)
    requires |t.chain| > 0 && ShapeOK(t, HoleAt(Top(t), 0))
    ensures |t.chain[Top(t)]| == 2 && t.chain[Top(t)][0] < |t.nodes| && t.nodes[t.chain[Top(t)][0]].high.Some?
    ensures LevelOK(t, 0) && LevelOK(t, Top(t))
    ensures |GrowRoot(t).chain| == |t.chain| + 1 && HoleOK(GrowRoot(t), NoHole)
  {
    assert LevelOK(t, 0) && LevelOK(t, Top(t));
    assert MemberOK(t, Top(t), t.chain[Top(t)][0]) && ThreadOK(t.nodes, t.chain[Top(t)], 0);
  }

  lemma GrowRootTop(t: Tree)
    requires |t.chain| > 0 && LevelOK(t, Top(t)) && |t.chain[Top(t)]| == 2
    requires t.chain[Top(t)][0] < |t.nodes| && t.nodes[t.chain[Top(t)][0]].high.Some?
    ensures var t' := GrowRoot(t);
      && LevelOK(t', |t.chain|) && TopOK(t', NoHole)
      && HintsOK(t', |t.chain|) && UpOK(t', Top(t), NoHole)
  {
    var kids := t.chain[Top(t)];
    assert MemberOK(t, Top(t), kids[0]) && MemberOK(t, Top(t), kids[1]) && ThreadOK(t.nodes, kids, 1);
    var t' := GrowRoot(t);
    var top := |t.nodes|;
    assert t'.nodes[top] == Node(false, [t.nodes[kids[0]].high.value], [], kids, None, None, None);
    assert t'.chain[|t.chain|] == [top];
    assert MemberOK(t', |t.chain|, top);
    assert KidRows(t'.nodes, [top]) == [KidRow(t'.nodes[top])];
    FlattenOne(KidRow(t'.nodes[top]));
    assert KidRow(t'.nodes[top]) == Covers(t'.nodes, kids);
    assert HintOK(t'.nodes, top);
  }

  lemma GrowRootHints(t: Tree, l: nat)
    requires |t.chain| > 0 && ShapeOK(t, HoleAt(Top(t), 0)) && l < |t.chain|
    requires |t.chain[Top(t)]| == 2 && t.chain[Top(t)][0] < |t.nodes| && t.nodes[t.chain[Top(t)][0]].high.Some?
    ensures HintsOK(GrowRoot(t), l)
  {
    var t' := GrowRoot(t);
    assert LevelOK(t, l) && HintsOK(t, l) && LevelOK(t, Top(t));
    GrowRootLevels(t, l);
    if l == 0 {
      SameLevelReads(t, t', 0);
      LeafHints(t');
    } else {
      assert LevelOK(t, l - 1) && UpOK(t, l - 1, HoleAt(Top(t), 0));
      forall n | 0 <= n < |t.nodes| && t.level[n] != Top(t) ensures t'.nodes[n].hint == t.nodes[n].hint {
        if n in t.chain[Top(t)] { LevelMembers(t, Top(t), n); assert false; }
      }
      HintsElsewhere(t, t', l, HoleAt(Top(t), 0), Top(t));
    }
  }

  lemma GrowRootUp(t: Tree, l: nat)
    requires l + 1 < |t.chain| && LevelOK(t, l) && LevelOK(t, l + 1) && LevelOK(t, Top(t))
    requires |t.chain[Top(t)]| == 2 && t.chain[Top(t)][0] < |t.nodes| && t.nodes[t.chain[Top(t)][0]].high.Some?
    requires UpOK(t, l, HoleAt(Top(t), 0))
    ensures UpOK(GrowRoot(t), l, NoHole)
  {
    GrowRootLevels(t, l);
    GrowRootLevels(t, l + 1);
    SameUp(t, GrowRoot(t), l, HoleAt(Top(t), 0), NoHole);
  }

  lemma GrowRootOldLevels(t: Tree)
    requires |t.chain| > 0 && ShapeOK(t, HoleAt(Top(t), 0))
    requires |t.chain[Top(t)]| == 2 && t.chain[Top(t)][0] < |t.nodes| && t.nodes[t.chain[Top(t)][0]].high.Some?
    requires |GrowRoot(t).chain| == |t.chain| + 1
    ensures var t' := GrowRoot(t); forall l :: 0 <= l < |t.chain| ==> LevelOK(t', l) && HintsOK(t', l)
    ensures var t' := GrowRoot(t); forall l :: 0 <= l < Top(t) ==> UpOK(t', l, NoHole)
  {
    hide LevelOK, HintsOK, UpOK, LeavesOK, SameLevel, TopOK, GrowRoot, HoleOK;
    var t' := GrowRoot(t);
    assert LevelOK(t, Top(t));
    forall l | 0 <= l < |t.chain| ensures LevelOK(t', l) && HintsOK(t', l) {
      assert LevelOK(t, l);
      GrowRootLevels(t, l);
      SameLevelReads(t, t', l);
      GrowRootHints(t, l);
    }
    forall l | 0 <= l < Top(t) ensures UpOK(t', l, NoHole) {
      assert UpOK(t, l, HoleAt(Top(t), 0)) && LevelOK(t, l) && LevelOK(t, l + 1);
      GrowRootUp(t, l);
    }
  }

  lemma GrowRootEntries(t: Tree)
    requires |t.chain| > 0 && LevelOK(t, 0) && LeavesOK(t) && LevelOK(t, Top(t))
    requires |t.chain[Top(t)]| == 2 && t.chain[Top(t)][0] < |t.nodes| && t.nodes[t.chain[Top(t)][0]].high.Some?
    ensures var t' := GrowRoot(t); LevelOK(t', 0) && LeavesOK(t') && Entries(t') == Entries(t)
  {
    GrowRootLevels(t, 0);
    SameLeaves(t, GrowRoot(t));
  }

  lemma GrowRootShape(t: Tree)
    requires |t.chain| > 0 && ShapeOK(t, HoleAt(Top(t), 0))
    ensures |t.chain[Top(t)]| == 2 && t.chain[Top(t)][0] < |t.nodes| && t.nodes[t.chain[Top(t)][0]].high.Some?
    ensures ShapeOK(GrowRoot(t), NoHole) && Entries(GrowRoot(t)) == Entries(t)
  {
    hide LevelOK, HintsOK, UpOK, LeavesOK, Entries, TopOK, GrowRoot, HoleOK;
    GrowRootReady(t);
    GrowRootTop(t);
    GrowRootOldLevels(t);
    GrowRootEntries(t);
  }
}
