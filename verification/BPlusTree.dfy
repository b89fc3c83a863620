/** The B+-tree used by one thread: an arena of nodes changed in place by `insert`,
    `remove`, `find` and `range`. Its contents behave as a list of pairs sorted by key. */
module BPlusTrees {
  import opened Basics
  import opened TreeKeys
  import opened Sequences
  import opened SortedPairs
  import opened BPlusShape
  import opened BPlusRead
  import opened BPlusRebalance
  import opened BPlusSizes
  import opened BPlusSteps

  const EMPTY_LEAF: Node := Node(true, [], [], [], None, None, None)

  class BPlusTree {
    const capacity: nat
    var nodes: seq<Node>
    var root: NodeId
    var size: nat
    ghost var chain: seq<seq<NodeId>>
    ghost var level: seq<nat>

    ghost function Snapshot(): Tree
      reads this
    {
      Tree(nodes, root, chain, level)
    }

    ghost predicate Valid()
      reads this
    {
      && capacity >= 2 && ShapeOK(Snapshot(), NoHole) && SizesOK(Snapshot(), capacity, None, None)
      && size == |Entries(Snapshot())|
    }

    ghost function Contents(): seq<Pair>
      requires Valid()
      reads this
    {
      Entries(Snapshot())
    }

    constructor (nodeCapacity: nat)
      requires nodeCapacity >= 2
      ensures Valid() && Contents() == [] && capacity == nodeCapacity
    {
      capacity := nodeCapacity;
      nodes, root, size := [EMPTY_LEAF], 0, 0;
      chain, level := [[0]], [0];
      new;
      EmptyTree(nodeCapacity);
    }

    // ----- walks -----

    // `move_right_`: hops while the high key says that `key` is further right.
    method MoveRight(start: NodeId, key: Key, ghost l: nat, ghost j: nat) returns (cur: NodeId, ghost k: nat)
      requires l < |chain| && j < |chain[l]| && LevelOK(Snapshot(), l) && start == chain[l][j]
      ensures j <= k < |chain[l]| && cur == chain[l][k] && cur < |nodes| && AtMost(key, nodes[cur].high)
      ensures forall i :: j <= i < k ==>
        && chain[l][i] < |nodes| && nodes[chain[l][i]].high.Some? && nodes[chain[l][i]].high.value < key
    {
      cur, k := start, j;
      assert MemberOK(Snapshot(), l, chain[l][j]);
      while nodes[cur].high.Some? && key > nodes[cur].high.value
        invariant j <= k < |chain[l]| && cur == chain[l][k] && cur < |nodes|
        invariant forall i :: j <= i < k ==>
          && chain[l][i] < |nodes| && nodes[chain[l][i]].high.Some? && nodes[chain[l][i]].high.value < key
        decreases |chain[l]| - k
      {
        assert ThreadOK(Snapshot().nodes, chain[l], k);
        cur, k := nodes[cur].right.value, k + 1;
        assert MemberOK(Snapshot(), l, chain[l][k]);
      }
    }

    // `descend_locked_`: from a node that covers `key` to the leaf that would hold it.
    method Descend(start: NodeId, key: Key, ghost top: nat, ghost j0: nat) returns (leaf: NodeId, ghost j: nat)
      requires ShapeOK(Snapshot(), NoHole) && Reached(Snapshot(), top, j0, key) && start == chain[top][j0]
      ensures Reached(Snapshot(), 0, j, key) && leaf == chain[0][j] && leaf < |nodes|
      ensures AtMost(key, nodes[leaf].high)
    {
      hide ShapeOK, LevelOK, UpOK;
      ghost var t := Snapshot();
      ghost var l: nat, k: nat := top, j0;
      var cur := start;
      while true
        invariant Reached(t, l, k, key) && cur == chain[l][k]
        decreases l
      {
        ghost var k0 := k;
        cur, k := MoveRight(cur, key, l, k);
        HopsReached(t, l, k0, k, key);
        if nodes[cur].leaf {
          return cur, k;
        }
        LevelBelow(t, l, k);
        ghost var below := ChildReached(t, l - 1, k, key);
        cur := nodes[cur].children[LowerBound(nodes[cur].keys, key)];
        l, k := l - 1, below;
      }
    }

    // The inner loop of `range`: the matching entries of one leaf, from the first key that
    // is at least lo up to the first that exceeds hi.
    method ScanLeaf(leaf: NodeId, lo: Key, hi: Key) returns (batch: seq<Pair>, exceeded: bool)
      requires leaf < |nodes| && NodeOK(nodes[leaf]) && nodes[leaf].leaf && Sorted(nodes[leaf].keys)
      ensures batch == Select(EntryRow(nodes[leaf]), lo, hi)
      ensures exceeded ==> exists q :: 0 <= q < |nodes[leaf].keys| && hi < nodes[leaf].keys[q]
    {
      hide Select, EntryRow;
      var nd := nodes[leaf];
      var it := LowerBound(nd.keys, lo);
      batch, exceeded := [], false;
      ScanStart(nd, lo, hi);
      while it < |nd.keys|
        invariant LowerBound(nd.keys, lo) <= it <= |nd.keys|
        invariant batch == Select(Row(nd, 0, it), lo, hi)
      {
        ScanStep(nd, it, lo, hi);
        if nd.keys[it] > hi {
          return batch, true;
        }
        batch := batch + [(nd.keys[it], nd.values[it])];
        it := it + 1;
      }
      RowWhole(nd);
    }

    // ----- inserting -----

    method Insert(key: Key, id: InternalId)
      requires Valid()
      modifies this
      ensures Valid() && Contents() == Added(old(Contents()), key, id)
    {
      hide ShapeOK, SizesOK, Entries, AtMost, LevelOK;
      ghost var t := Snapshot();
      RootReached(t, key);
      var leaf;
      ghost var j;
      leaf, j := Descend(root, key, Top(t), 0);
      LeafTarget(t, j, key, id);
      WriteEntry(leaf, key, id);
      ghost var t1 := Snapshot();
      size := size + 1;
      WriteSizes(t, capacity, j, t1.nodes[leaf]);
      if |nodes[leaf].keys| <= capacity {
        OverFits(t1, capacity, leaf);
        return;
      }
      OverFull(t1, capacity, 0, j, leaf);
      HalvesFull(|nodes[leaf].keys|, capacity);
      var right, separator := SplitLeafNode(leaf, j);
      SplitLeafShape(t1, j);
      SplitLeafSizes(t1, capacity, j);
      Climb(leaf, right, separator, 0, j);
    }

    method WriteEntry(leaf: NodeId, key: Key, id: InternalId)
      requires leaf < |nodes| && NodeOK(nodes[leaf]) && nodes[leaf].leaf
      modifies this`nodes
      ensures Snapshot() == Rewrite(old(Snapshot()), leaf, WithEntry(old(nodes[leaf]), key, id))
    {
      var pos := LowerBound(nodes[leaf].keys, key);
      nodes := nodes[leaf := nodes[leaf].(keys := InsertAt(nodes[leaf].keys, pos, key))];
      nodes := nodes[leaf := nodes[leaf].(values := InsertAt(nodes[leaf].values, pos, id))];
    }

    // `split_leaf_`.
    method SplitLeafNode(l: NodeId, ghost j: nat) returns (right: NodeId, separator: Key)
      requires LeafAt(Snapshot(), j) && l == chain[0][j] && |nodes[l].keys| > 0
      modifies this`nodes, this`chain, this`level
      ensures Snapshot() == SplitLeaf(old(Snapshot()), j)
      ensures right == old(|nodes|) && nodes[l].high == Some(separator)
    {
      var mid := (|nodes[l].keys| + 1) / 2;
      right := |nodes|;
      nodes := nodes + [EMPTY_LEAF];
      nodes := nodes[right := nodes[right].(keys := nodes[l].keys[mid..], values := nodes[l].values[mid..])];
      nodes := nodes[l := nodes[l].(keys := nodes[l].keys[..mid], values := nodes[l].values[..mid])];
      nodes := nodes[right := nodes[right].(right := nodes[l].right, high := nodes[l].high)];
      separator := nodes[l].keys[mid - 1];
      nodes := nodes[l := nodes[l].(right := Some(right), high := Some(separator))];
      chain, level := chain[0 := Cut(chain[0], j, 1, [l, right])], level + [0];
    }

    // `split_internal_`.
    method SplitInnerNode(n: NodeId, ghost l: nat, ghost j: nat) returns (right: NodeId, separator: Key)
      requires SplitInnerReady(Snapshot(), l, j) && n == chain[l][j]
      modifies this`nodes, this`chain, this`level
      ensures Snapshot() == SplitInner(old(Snapshot()), l, j)
      ensures right == old(|nodes|) && n < |nodes| && nodes[n].high == Some(separator)
    {
      ghost var t := Snapshot();
      var mid := |nodes[n].keys| / 2;
      right := |nodes|;
      nodes := nodes + [EMPTY_LEAF.(leaf := false)];
      separator := nodes[n].keys[mid];
      nodes := nodes[right := nodes[right].(keys := nodes[n].keys[mid + 1..],
        children := nodes[n].children[mid + 1..])];
      nodes := nodes[n := nodes[n].(keys := nodes[n].keys[..mid], children := nodes[n].children[..mid + 1])];
      nodes := nodes[right := nodes[right].(right := nodes[n].right, high := nodes[n].high)];
      nodes := nodes[n := nodes[n].(right := Some(right), high := Some(separator))];
      assert nodes == t.nodes[n := InnerLeft(t.nodes[n], right)] + [InnerRight(t.nodes[n])];
      MovedInRange(t, l, j);
      Rehome(nodes[right].children, right);
      chain, level := chain[l := Cut(chain[l], j, 1, [n, right])], level + [l];
      SplitInnerEnds(t, l, j);
    }

    // The loop that tells children who their parent is now.
    method Rehome(kids: seq<NodeId>, p: NodeId)
      requires forall c :: c in kids ==> c < |nodes|
      modifies this`nodes
      ensures nodes == Rehomed(old(nodes), kids, p)
    {
      ghost var before := nodes;
      for i := 0 to |kids|
        invariant nodes == Rehomed(before, kids[..i], p)
      {
        assert kids[i] in kids;
        nodes := nodes[kids[i] := nodes[kids[i]].(hint := Some(p))];
        assert kids[..i + 1] == kids[..i] + [kids[i]];
      }
      assert kids[..|kids|] == kids;
    }

    // Puts the right half of a split next to the left half in the parent that holds it.
    // The hint names that parent exactly, so the search for the child never hops.
    method SpliceChild(parent: NodeId, child: NodeId, right: NodeId, separator: Key, ghost l: nat, ghost j: nat)
      returns (ghost p: nat)
      requires ShapeOK(Snapshot(), HoleAt(l, j)) && SizesOK(Snapshot(), capacity, None, None)
      requires l < |chain| && j + 1 < |chain[l]| && child == chain[l][j] && right == chain[l][j + 1]
      requires child < |nodes| && nodes[child].high == Some(separator) && nodes[child].hint == Some(parent)
      modifies this`nodes
      ensures ShapeOK(Snapshot(), NoHole) && SizesOK(Snapshot(), capacity, Some(parent), None)
      ensures l + 1 < |chain| && p < |chain[l + 1]| && parent == chain[l + 1][p] && parent < |nodes|
      ensures Entries(Snapshot()) == old(Entries(Snapshot()))
    {
      hide ShapeOK, SizesOK, Entries, LevelOK, UpOK, HintsOK;
      ghost var t := Snapshot();
      HoleHalves(t, l, j);
      HintBelowTop(t, l, j);
      ghost var ci0;
      p, ci0 := HoleParent(t, l, j);
      var ci := IndexOf(nodes[parent].children, child);
      SpliceShape(t, l, j, p, ci);
      SpliceSizes(t, capacity, l, j, p, ci);
      SpliceIs(t, l, j, p, ci);
      nodes := nodes[parent := nodes[parent].(keys := InsertAt(nodes[parent].keys, ci, separator),
                                              children := InsertAt(nodes[parent].children, ci + 1, right))];
      nodes := nodes[right := nodes[right].(hint := Some(parent))];
    }

    // Splits a parent that has become too full.
    method SplitParent(n: NodeId, ghost l: nat, ghost j: nat) returns (right: NodeId, separator: Key)
      requires ShapeOK(Snapshot(), NoHole) && SizesOK(Snapshot(), capacity, Some(n), None) && capacity >= 2
      requires 0 < l < |chain| && j < |chain[l]| && n == chain[l][j] && n < |nodes| && |nodes[n].keys| > capacity
      modifies this`nodes, this`chain, this`level
      ensures ShapeOK(Snapshot(), HoleAt(l, j)) && SizesOK(Snapshot(), capacity, None, None)
      ensures |chain| == old(|chain|) && j + 1 < |chain[l]| && n == chain[l][j] && right == chain[l][j + 1]
      ensures n < |nodes| && nodes[n].high == Some(separator) && nodes[n].hint == old(nodes[n].hint)
      ensures Entries(Snapshot()) == old(Entries(Snapshot()))
    {
      hide ShapeOK, SizesOK, Entries, SplitInner, SplitInnerReady;
      ghost var t := Snapshot();
      OverFull(t, capacity, l, j, n);
      InnerReady(t, l, j);
      SplitInnerShape(t, l, j);
      SplitInnerSizes(t, capacity, l, j);
      SplitKeepsHint(t, l, j);
      right, separator := SplitInnerNode(n, l, j);
      SplitChain(t, l, j);
    }

    // A new root over the two halves of the old one.
    method GrowRootNode(child: NodeId, right: NodeId, separator: Key)
      requires |chain| > 0 && ShapeOK(Snapshot(), HoleAt(|chain| - 1, 0)) && SizesOK(Snapshot(), capacity, None, None)
      requires capacity >= 2 && chain[|chain| - 1] == [child, right] && child < |nodes| && right < |nodes|
      requires nodes[child].high == Some(separator)
      modifies this`nodes, this`root, this`chain, this`level
      ensures ShapeOK(Snapshot(), NoHole) && SizesOK(Snapshot(), capacity, None, None)
      ensures Entries(Snapshot()) == old(Entries(Snapshot()))
    {
      hide ShapeOK, SizesOK, Entries, LevelOK;
      ghost var t := Snapshot();
      GrowRootShape(t);
      GrowRootLevelOK(t);
      GrowRootSizes(t, capacity);
      var top := |nodes|;
      nodes := nodes + [Node(false, [separator], [], [child, right], None, None, None)];
      root := top;
      nodes := nodes[child := nodes[child].(hint := Some(top))];
      nodes := nodes[right := nodes[right].(hint := Some(top))];
      chain, level := chain + [[top]], level + [|chain|];
      assert Snapshot() == GrowRoot(t);
    }

    // The cascade of `insert`: puts the right half of a split into the parent of the left
    // half, and goes on with the parent if that is too full now.
    method Climb(child0: NodeId, right0: NodeId, separator0: Key, ghost l0: nat, ghost j0: nat)
      requires ShapeOK(Snapshot(), HoleAt(l0, j0)) && SizesOK(Snapshot(), capacity, None, None) && capacity >= 2
      requires l0 < |chain| && j0 + 1 < |chain[l0]| && child0 == chain[l0][j0] && right0 == chain[l0][j0 + 1]
      requires child0 < |nodes| && nodes[child0].high == Some(separator0)
      modifies this`nodes, this`root, this`chain, this`level
      ensures ShapeOK(Snapshot(), NoHole) && SizesOK(Snapshot(), capacity, None, None)
      ensures Entries(Snapshot()) == old(Entries(Snapshot()))
    {
      hide ShapeOK, SizesOK, Entries;
      ghost var l: nat, j: nat := l0, j0;
      var child, right, separator := child0, right0, separator0;
      var hint := nodes[child].hint;
      while true
        invariant ShapeOK(Snapshot(), HoleAt(l, j)) && SizesOK(Snapshot(), capacity, None, None)
        invariant l < |chain| && j + 1 < |chain[l]| && child == chain[l][j] && right == chain[l][j + 1]
        invariant child < |nodes| && nodes[child].high == Some(separator) && nodes[child].hint == hint
        invariant Entries(Snapshot()) == old(Entries(Snapshot()))
        decreases |chain| - l
      {
        if hint.None? {
          NoHintIsRoot(Snapshot(), l, j);
          RootHalves(Snapshot(), l, j);
          GrowRootNode(child, right, separator);
          return;
        }
        var parent := hint.value;
        ghost var p := SpliceChild(parent, child, right, separator, l, j);
        if |nodes[parent].keys| <= capacity {
          OverFits(Snapshot(), capacity, parent);
          return;
        }
        hint := nodes[parent].hint;
        right, separator := SplitParent(parent, l + 1, p);
        child, l, j := parent, l + 1, p;
      }
    }

    // ----- removing -----

    method Remove(key: Key, id: InternalId) returns (found: bool)
      requires Valid()
      modifies this
      ensures Valid()
      ensures found <==> (key, id) in old(Contents())
      ensures Contents() == Dropped(old(Contents()), (key, id))
    {
      hide ShapeOK, SizesOK, Entries, PathOK, EntryRows, Offset;
      var leaf, path, at;
      ghost var pos, j;
      found, leaf, path, at, pos, j := LocateCopy(key, id);
      if found {
        EraseAndRebalance(leaf, path, at, pos, j, IndexOf(Contents(), (key, id)));
      }
    }

    // The search of `remove`: leaf after leaf, while the next one begins with the key.
    method LocateCopy(key: Key, id: InternalId)
      returns (found: bool, cur: NodeId, path: seq<NodeId>, at: nat, ghost pos: seq<nat>, ghost j: nat)
      requires Valid()
      ensures found <==> (key, id) in Contents()
      ensures found ==>
        && PathOK(Snapshot(), path, pos, 0, j) && |chain| > 0 && j < |chain[0]| && cur == chain[0][j]
        && cur < |nodes| && at < |nodes[cur].keys|
        && IndexOf(Contents(), (key, id)) == Offset(EntryRows(nodes, chain[0]), j) + at
    {
      hide ShapeOK, SizesOK, LevelOK, Entries, PathOK, AtMost, Prefix, Offset;
      ghost var t := Snapshot();
      NotEmpty(t);
      cur, path, pos, j := DescendWithPath(key);
      NotBefore(t, j, (key, id));
      while true
        invariant PathOK(t, path, pos, 0, j) && j < |chain[0]| && cur == chain[0][j] && cur < |nodes|
        invariant AtMost(key, nodes[cur].high) && (key, id) !in Prefix(EntryRows(t.nodes, t.chain[0]), j)
        decreases |chain[0]| - j
      {
        LeafScanned(t, j, key, key);
        var lo, hi := LowerBound(nodes[cur].keys, key), UpperBound(nodes[cur].keys, key);
        at := FindId(cur, lo, hi, key, id);
        if at < hi {
          FirstCopy(t, j, at, (key, id));
          found := true;
          return;
        }
        NotInLeaf(t, j, (key, id));
        if hi != |nodes[cur].keys| {
          NotBeyond(t, j, hi, (key, id));
          found := false;
          return;
        }
        found, path, cur, pos := AdvanceToNextLeaf(path, cur, pos, j);
        if !found {
          LastScannedAll(t, j);
          return;
        }
        j := j + 1;
        NextCovers(t, capacity, j, key);
        if nodes[cur].keys == [] || nodes[cur].keys[0] != key {
          NotBeyond(t, j, 0, (key, id));
          found := false;
          return;
        }
      }
    }

    // The first part of `remove`: down to the leaf, remembering the ancestors.
    method DescendWithPath(key: Key) returns (cur: NodeId, path: seq<NodeId>, ghost pos: seq<nat>, ghost j: nat)
      requires ShapeOK(Snapshot(), NoHole)
      ensures |chain| > 0 && PathOK(Snapshot(), path, pos, 0, j) && Reached(Snapshot(), 0, j, key)
      ensures cur == chain[0][j] && cur < |nodes| && AtMost(key, nodes[cur].high)
    {
      hide ShapeOK, LevelOK, UpOK, PathOK;
      ghost var t := Snapshot();
      RootReached(t, key);
      RootPath(t, key);
      path, pos, cur := [], [], root;
      ghost var l: nat := Top(t);
      j := 0;
      while !nodes[cur].leaf
        invariant Reached(t, l, j, key) && cur == chain[l][j] && AtMost(key, nodes[cur].high)
        invariant PathOK(t, path, pos, l, j)
        decreases l
      {
        LevelBelow(t, l, j);
        ghost var below := ChildReached(t, l - 1, j, key);
        var child := nodes[cur].children[LowerBound(nodes[cur].keys, key)];
        PathStep(t, path, pos, l, j, below);
        path, pos := path + [cur], pos + [j];
        cur, l, j := child, l - 1, below;
      }
    }

    // The copy of (key, id) in one leaf, or hi.
    method FindId(leaf: NodeId, lo: nat, hi: nat, key: Key, id: InternalId) returns (at: nat)
      requires leaf < |nodes| && NodeOK(nodes[leaf]) && nodes[leaf].leaf && Sorted(nodes[leaf].keys)
      requires lo == LowerBound(nodes[leaf].keys, key) && hi == UpperBound(nodes[leaf].keys, key)
      ensures lo <= hi && lo <= at <= hi
      ensures at < hi ==> EntryRow(nodes[leaf])[at] == (key, id)
      ensures forall i :: 0 <= i < (if at < hi then at else |nodes[leaf].keys|) ==>
        EntryRow(nodes[leaf])[i] != (key, id)
    {
      KeyRange(nodes[leaf].keys, key);
      at := lo;
      while at < hi
        invariant lo <= at <= hi
        invariant forall i :: lo <= i < at ==> nodes[leaf].values[i] != id
      {
        if nodes[leaf].values[at] == id {
          return;
        }
        at := at + 1;
      }
    }

    // `advance_to_next_leaf_`: climbs until there is a child further right, then follows
    // first children down.
    method AdvanceToNextLeaf(path0: seq<NodeId>, cur0: NodeId, ghost pos0: seq<nat>, ghost j: nat)
      returns (advanced: bool, path: seq<NodeId>, cur: NodeId, ghost pos: seq<nat>)
      requires ShapeOK(Snapshot(), NoHole) && PathOK(Snapshot(), path0, pos0, 0, j) && cur0 == chain[0][j]
      ensures advanced <==> j + 1 < |chain[0]|
      ensures advanced ==>
        PathOK(Snapshot(), path, pos, 0, j + 1) && cur == chain[0][j + 1] && cur < |nodes|
    {
      hide ShapeOK, LevelOK, UpOK, PathOK, FirstLeaf;
      ghost var t := Snapshot();
      path, cur, pos := path0, cur0, pos0;
      ghost var l: nat, k: nat := 0, j;
      NotEmpty(t);
      PathPlace(t, path, pos, l, k);
      LeafIsFirst(t, j + 1);
      while path != []
        invariant PathOK(t, path, pos, l, k) && l < |chain| && k < |chain[l]| && cur == chain[l][k]
        invariant FirstLeaf(t, l, k + 1) == j + 1
        decreases |path|
      {
        var parent := path[|path| - 1];
        AdvanceStep(t, path, pos, l, k);
        var idx := IndexOf(nodes[parent].children, cur);
        if idx + 1 < |nodes[parent].children| {
          path, cur, pos := FollowFirst(path, nodes[parent].children[idx + 1], pos, l, k + 1, j + 1);
          return true, path, cur, pos;
        }
        cur, l, k := parent, l + 1, pos[|pos| - 1];
        path, pos := path[..|path| - 1], pos[..|pos| - 1];
      }
      PathNode(t, path, pos, l, k);
      WholeLevel(t, l);
      advanced := false;
    }

    // Down the first children of a node, to the leaf where its subtree begins.
    method FollowFirst(path0: seq<NodeId>, node0: NodeId, ghost pos0: seq<nat>, ghost l0: nat, ghost k0: nat,
      ghost j: nat)
      returns (path: seq<NodeId>, node: NodeId, ghost pos: seq<nat>)
      requires ShapeOK(Snapshot(), NoHole) && PathOK(Snapshot(), path0, pos0, l0, k0)
      requires l0 < |chain| && k0 < |chain[l0]| && node0 == chain[l0][k0] && FirstLeaf(Snapshot(), l0, k0) == j
      ensures |chain| > 0 && j < |chain[0]| && PathOK(Snapshot(), path, pos, 0, j)
      ensures node == chain[0][j] && node < |nodes|
    {
      hide ShapeOK, LevelOK, UpOK, PathOK, FirstLeaf;
      ghost var t := Snapshot();
      path, node, pos := path0, node0, pos0;
      ghost var l: nat, k: nat := l0, k0;
      PathNode(t, path, pos, l, k);
      while !nodes[node].leaf
        invariant PathOK(t, path, pos, l, k) && l < |chain| && k < |chain[l]| && node == chain[l][k]
        invariant MemberOK(t, l, node) && FirstLeaf(t, l, k) == j
        decreases l
      {
        LevelBelow(t, l, k);
        PathNode(t, path, pos, l, k);
        ChildLeaves(t, l - 1, k, 0);
        ghost var below := Offset(KidRows(t.nodes, t.chain[l]), k);
        var child := nodes[node].children[0];
        PathStep(t, path, pos, l, k, below);
        path, pos := path + [node], pos + [k];
        node, l, k := child, l - 1, below;
        PathNode(t, path, pos, l, k);
      }
      LeafIsFirst(t, k);
    }

    // Erases one entry of a leaf and restores occupancy.
    method EraseAndRebalance(leaf: NodeId, path: seq<NodeId>, at: nat, ghost pos: seq<nat>, ghost j: nat, ghost k: nat)
      requires Valid() && PathOK(Snapshot(), path, pos, 0, j) && leaf == chain[0][j]
      requires leaf < |nodes| && at < |nodes[leaf].keys|
      requires k < |Contents()| && k == Offset(EntryRows(nodes, chain[0]), j) + at
      modifies this
      ensures Valid() && Contents() == RemoveAt(old(Contents()), k)
    {
      hide ShapeOK, SizesOK, LevelOK, Entries, PathOK, EntryRows, Offset;
      ghost var t := Snapshot();
      PathPlace(t, path, pos, 0, j);
      PathNode(t, path, pos, 0, j);
      EraseLeafShape(t, j, at);
      EraseSizes(t, capacity, j, WithoutEntry(t.nodes[leaf], at));
      ErasePath(t, j, WithoutEntry(t.nodes[leaf], at), path, pos);
      nodes := nodes[leaf := nodes[leaf].(keys := RemoveAt(nodes[leaf].keys, at))];
      nodes := nodes[leaf := nodes[leaf].(values := RemoveAt(nodes[leaf].values, at))];
      assert Snapshot() == Rewrite(t, leaf, WithoutEntry(t.nodes[leaf], at));
      size := size - 1;
      RebalanceAfterErase(path, leaf, pos, j);
    }

    // `rebalance_after_erase_`.
    method RebalanceAfterErase(path0: seq<NodeId>, node0: NodeId, ghost pos0: seq<nat>, ghost j0: nat)
      requires capacity >= 2 && ShapeOK(Snapshot(), NoHole) && SizesOK(Snapshot(), capacity, None, Some(node0))
      requires PathOK(Snapshot(), path0, pos0, 0, j0) && node0 == chain[0][j0] && node0 < |nodes|
      modifies this`nodes, this`root, this`chain, this`level
      ensures ShapeOK(Snapshot(), NoHole) && SizesOK(Snapshot(), capacity, None, None)
      ensures Entries(Snapshot()) == old(Entries(Snapshot()))
    {
      hide ShapeOK, SizesOK, LevelOK, UpOK, Entries, PathOK, PairIn;
      var minKeys := capacity / 2;
      var path: seq<NodeId>, node: NodeId := path0, node0;
      ghost var pos, l: nat, j: nat := pos0, 0, j0;
      PathPlace(Snapshot(), path, pos, l, j);
      while true
        invariant ShapeOK(Snapshot(), NoHole) && SizesOK(Snapshot(), capacity, None, Some(node))
        invariant PathOK(Snapshot(), path, pos, l, j) && l < |chain| && j < |chain[l]|
        invariant node == chain[l][j] && node < |nodes|
        invariant Entries(Snapshot()) == old(Entries(Snapshot()))
        decreases |path|
      {
        ghost var t := Snapshot();
        PathNode(t, path, pos, l, j);
        if path == [] || |nodes[node].keys| >= minKeys {
          if path == [] && !nodes[node].leaf && nodes[node].keys == [] {
            CollapseRoot();
          } else {
            UnderFits(t, capacity, node);
          }
          return;
        }
        var parent := path[|path| - 1];
        UnderfullChild(t, capacity, path, pos, l, j);
        var ci := IndexOf(nodes[parent].children, node);
        ghost var p := pos[|pos| - 1];
        path, pos := path[..|path| - 1], pos[..|pos| - 1];
        var hasRight := ci + 1 < |nodes[parent].children|;
        var hasLeft := ci > 0;
        if hasRight && |nodes[nodes[parent].children[ci + 1]].keys| > minKeys {
          BorrowFromRight(parent, ci, l, j, p);
          return;
        }
        if hasLeft && |nodes[nodes[parent].children[ci - 1]].keys| > minKeys {
          BorrowFromLeft(parent, ci, l, j, p);
          return;
        }
        if hasRight {
          MergeWithRight(parent, ci, node, l, j, p, path, pos);
        } else {
          MergeWithRight(parent, ci - 1, node, l, j - 1, p, path, pos);
        }
        node, l, j := parent, l + 1, p;
      }
    }

    // An inner root with one child left hands over to that child.
    method CollapseRoot()
      requires capacity >= 2 && ShapeOK(Snapshot(), NoHole) && SizesOK(Snapshot(), capacity, None, Some(root))
      requires root < |nodes| && !nodes[root].leaf && nodes[root].keys == []
      modifies this`nodes, this`root, this`chain
      ensures ShapeOK(Snapshot(), NoHole) && SizesOK(Snapshot(), capacity, None, None)
      ensures Entries(Snapshot()) == old(Entries(Snapshot()))
    {
      hide ShapeOK, SizesOK, Entries, UpOK;
      ghost var t := Snapshot();
      InnerRoot(t);
      CollapseIsReady(t);
      CollapseShape(t);
      AllLevels(t);
      CollapseSizes(t, capacity, Some(root));
      var newRoot := nodes[root].children[0];
      nodes := nodes[newRoot := nodes[newRoot].(high := None)];
      nodes := nodes[newRoot := nodes[newRoot].(right := None)];
      nodes := nodes[newRoot := nodes[newRoot].(hint := None)];
      root := newRoot;
      chain := chain[..|chain| - 1];
      assert Snapshot() == Collapse(t);
    }

    // `borrow_from_right_`: child ci of the parent takes from child ci + 1.
    method BorrowFromRight(parent: NodeId, ci: nat, ghost l: nat, ghost j: nat, ghost p: nat)
      requires RebalanceReady(Snapshot(), l, j, p, ci) && parent == chain[l + 1][p] && capacity >= 2
      requires SizesOK(Snapshot(), capacity, None, Some(chain[l][j]))
      requires |nodes[chain[l][j]].keys| < capacity / 2 < |nodes[chain[l][j + 1]].keys|
      modifies this`nodes
      ensures ShapeOK(Snapshot(), NoHole) && SizesOK(Snapshot(), capacity, None, None)
      ensures Entries(Snapshot()) == old(Entries(Snapshot()))
    {
      hide ShapeOK, SizesOK, Entries, LevelOK, UpOK, HintsOK, HintOK, LeafOK;
      ghost var t := Snapshot();
      BorrowRightShape(t, l, j, p, ci);
      BorrowRightSizes(t, capacity, l, j, p, ci);
      SiblingsApart(t, l, j, p, ci);
      KidsOutside(t, l, j, p, ci, j + 1);
      TakeFromRight(parent, ci);
    }

    method TakeFromRight(parent: NodeId, ci: nat)
      requires Trio(nodes, parent, ci) && |nodes[nodes[parent].children[ci + 1]].keys| > 0
      requires Outside(nodes, parent, ci, nodes[parent].children[ci + 1])
      modifies this`nodes
      ensures nodes == BorrowRight(old(nodes), parent, ci)
    {
      ghost var before := nodes;
      var u, r := nodes[parent].children[ci], nodes[parent].children[ci + 1];
      if nodes[u].leaf {
        var borrowed := nodes[r].keys[0];
        nodes := nodes[u := nodes[u].(keys := nodes[u].keys + [borrowed],
          values := nodes[u].values + [nodes[r].values[0]])];
        nodes := nodes[r := nodes[r].(keys := nodes[r].keys[1..], values := nodes[r].values[1..])];
        nodes := nodes[parent := nodes[parent].(keys := nodes[parent].keys[ci := borrowed])];
        nodes := nodes[u := nodes[u].(high := Some(borrowed))];
      } else {
        var newSep, moved := nodes[r].keys[0], nodes[r].children[0];
        nodes := nodes[u := nodes[u].(keys := nodes[u].keys + [nodes[parent].keys[ci]],
          children := nodes[u].children + [moved])];
        nodes := nodes[parent := nodes[parent].(keys := nodes[parent].keys[ci := newSep])];
        nodes := nodes[u := nodes[u].(high := Some(newSep))];
        nodes := nodes[r := nodes[r].(keys := nodes[r].keys[1..], children := nodes[r].children[1..])];
        nodes := nodes[moved := nodes[moved].(hint := Some(u))];
      }
      assert nodes == BorrowRight(before, parent, ci);
    }

    // `borrow_from_left_`: child ci of the parent takes from child ci - 1.
    method BorrowFromLeft(parent: NodeId, ci: nat, ghost l: nat, ghost j: nat, ghost p: nat)
      requires ci > 0 && j > 0 && RebalanceReady(Snapshot(), l, j - 1, p, ci - 1) && parent == chain[l + 1][p]
      requires capacity >= 2 && SizesOK(Snapshot(), capacity, None, Some(chain[l][j]))
      requires |nodes[chain[l][j]].keys| < capacity / 2 < |nodes[chain[l][j - 1]].keys|
      modifies this`nodes
      ensures ShapeOK(Snapshot(), NoHole) && SizesOK(Snapshot(), capacity, None, None)
      ensures Entries(Snapshot()) == old(Entries(Snapshot()))
    {
      hide ShapeOK, SizesOK, Entries, LevelOK, UpOK, HintsOK, HintOK, LeafOK;
      ghost var t := Snapshot();
      BorrowLeftShape(t, l, j - 1, p, ci - 1);
      BorrowLeftSizes(t, capacity, l, j - 1, p, ci - 1);
      SiblingsApart(t, l, j - 1, p, ci - 1);
      KidsOutside(t, l, j - 1, p, ci - 1, j - 1);
      TakeFromLeft(parent, ci);
    }

    method TakeFromLeft(parent: NodeId, ci: nat)
      requires ci > 0 && Trio(nodes, parent, ci - 1) && Outside(nodes, parent, ci - 1, nodes[parent].children[ci - 1])
      requires |nodes[nodes[parent].children[ci - 1]].keys| > 1
      modifies this`nodes
      ensures nodes == BorrowLeft(old(nodes), parent, ci - 1)
    {
      ghost var before := nodes;
      var u, left := nodes[parent].children[ci], nodes[parent].children[ci - 1];
      var n := |nodes[left].keys| - 1;
      if nodes[u].leaf {
        nodes := nodes[u := nodes[u].(keys := [nodes[left].keys[n]] + nodes[u].keys,
          values := [nodes[left].values[n]] + nodes[u].values)];
        nodes := nodes[left := nodes[left].(keys := nodes[left].keys[..n], values := nodes[left].values[..n])];
        nodes := nodes[parent := nodes[parent].(keys := nodes[parent].keys[ci - 1 := nodes[left].keys[n - 1]])];
        nodes := nodes[left := nodes[left].(high := Some(nodes[left].keys[n - 1]))];
      } else {
        var moved := nodes[left].children[n + 1];
        nodes := nodes[u := nodes[u].(keys := [nodes[parent].keys[ci - 1]] + nodes[u].keys,
          children := [moved] + nodes[u].children)];
        nodes := nodes[parent := nodes[parent].(keys := nodes[parent].keys[ci - 1 := nodes[left].keys[n]])];
        nodes := nodes[left := nodes[left].(high := Some(nodes[left].keys[n]))];
        nodes := nodes[left := nodes[left].(keys := nodes[left].keys[..n], children := nodes[left].children[..n + 1])];
        nodes := nodes[moved := nodes[moved].(hint := Some(u))];
      }
      assert nodes == BorrowLeft(before, parent, ci - 1);
    }

    // `merge_with_right_`: child ci of the parent absorbs child ci + 1; one of the two, x,
    // was one short. Now the parent may be.
    method MergeWithRight(parent: NodeId, ci: nat, ghost x: NodeId, ghost l: nat, ghost j: nat, ghost p: nat,
                          ghost path: seq<NodeId>, ghost pos: seq<nat>)
      requires RebalanceReady(Snapshot(), l, j, p, ci) && parent == chain[l + 1][p] && capacity >= 2
      requires SizesOK(Snapshot(), capacity, None, Some(x)) && (x == chain[l][j] || x == chain[l][j + 1])
      requires |nodes[x].keys| < capacity / 2
      requires forall i :: j <= i <= j + 1 ==> |nodes[chain[l][i]].keys| <= capacity / 2
      requires PathOK(Snapshot(), path, pos, l + 1, p)
      modifies this`nodes, this`chain
      ensures ShapeOK(Snapshot(), NoHole) && SizesOK(Snapshot(), capacity, None, Some(parent))
      ensures PathOK(Snapshot(), path, pos, l + 1, p) && l + 1 < |chain| && p < |chain[l + 1]|
      ensures parent == chain[l + 1][p] && parent < |nodes|
      ensures Entries(Snapshot()) == old(Entries(Snapshot()))
    {
      hide ShapeOK, SizesOK, Entries, LevelOK, UpOK, HintsOK, HintOK, LeafOK, PathOK;
      ghost var t := Snapshot();
      SiblingsApart(t, l, j, p, ci);
      MergeShape(t, l, j, p, ci);
      MergeSizes(t, capacity, l, j, p, ci, x);
      PairPath(t, MergeTree(t, l, j, parent, ci), l, j, p, ci, [t.chain[l][j]], path, pos);
      KidsOutside(t, l, j, p, ci, j + 1);
      Absorption(parent, ci);
      chain := chain[l := Cut(chain[l], j, 2, [chain[l][j]])];
    }

    method Absorption(parent: NodeId, ci: nat)
      requires Trio(nodes, parent, ci) && Outside(nodes, parent, ci, nodes[parent].children[ci + 1])
      modifies this`nodes
      ensures nodes == Merge(old(nodes), parent, ci)
    {
      ghost var before := nodes;
      var left, right := nodes[parent].children[ci], nodes[parent].children[ci + 1];
      if nodes[left].leaf {
        nodes := nodes[left := nodes[left].(keys := nodes[left].keys + nodes[right].keys)];
        nodes := nodes[left := nodes[left].(values := nodes[left].values + nodes[right].values)];
      } else {
        nodes := nodes[left := nodes[left].(keys := nodes[left].keys + [nodes[parent].keys[ci]])];
        nodes := nodes[left := nodes[left].(keys := nodes[left].keys + nodes[right].keys)];
        nodes := nodes[left := nodes[left].(children := nodes[left].children + nodes[right].children)];
        Rehome(nodes[right].children, left);
      }
      nodes := nodes[left := nodes[left].(right := nodes[right].right)];
      nodes := nodes[left := nodes[left].(high := nodes[right].high)];
      nodes := nodes[parent := nodes[parent].(keys := RemoveAt(nodes[parent].keys, ci),
                                              children := RemoveAt(nodes[parent].children, ci + 1))];
      assert nodes == Merge(before, parent, ci);
    }

    // ----- reading -----

    method Range(lo: Key, hi: Key) returns (out: seq<Pair>)
      requires Valid()
      ensures out == Select(Contents(), lo, hi)
    {
      hide ShapeOK, LevelOK, SizesOK, Entries, Prefix;
      ghost var t := Snapshot();
      NotEmpty(t);
      if lo > hi {
        SelectNone(Entries(t), lo, hi);
        return [];
      }
      out := [];
      RootReached(t, lo);
      var cur, at := MoveRight(root, lo, Top(t), 0);
      HopsReached(t, Top(t), 0, at, lo);
      ghost var j;
      cur, j := Descend(cur, lo, Top(t), at);
      FirstScanned(t, j, lo, hi);
      while true
        invariant j < |chain[0]| && cur == chain[0][j] && cur < |nodes| && LevelOK(t, 0)
        invariant out == Select(Prefix(EntryRows(t.nodes, t.chain[0]), j), lo, hi)
        decreases |chain[0]| - j
      {
        ghost var j0 := j;
        cur, j := MoveRight(cur, lo, 0, j);
        SkipTo(t, j0, j, lo, hi);
        LeafScanned(t, j, lo, hi);
        var batch, exceeded := ScanLeaf(cur, lo, hi);
        var next := nodes[cur].right;
        out := out + batch;
        if exceeded {
          ghost var q :| 0 <= q < |nodes[cur].keys| && hi < nodes[cur].keys[q];
          ScanDone(t, j, q, lo, hi);
          return;
        }
        if next.None? {
          LastScanned(t, j);
          return;
        }
        cur, j := next.value, j + 1;
        NextLeaf(t, j);
      }
    }

    method Find(key: Key) returns (ids: seq<InternalId>)
      requires Valid()
      ensures |ids| == |Select(Contents(), key, key)|
      ensures forall i :: 0 <= i < |ids| ==> Select(Contents(), key, key)[i] == (key, ids[i])
    {
      var pairs := Range(key, key);
      SelectMatches(Contents(), key, key);
      ids := [];
      for i := 0 to |pairs|
        invariant |ids| == i && forall k :: 0 <= k < i ==> pairs[k] == (key, ids[k])
      {
        ids := ids + [pairs[i].1];
      }
    }

    method Height() returns (h: nat)
      requires Valid()
      ensures h == |chain|
      ensures h >= 2 ==> |Contents()| >= 2 * Power(capacity / 2 + 1, h - 2) * (capacity / 2)
    {
      hide LevelOK, UpOK, LeavesOK, HintsOK, SizesOK;
      ghost var t := Snapshot();
      if |chain| >= 2 { HeightBound(t, capacity); }
      h := 1;
      var cur := root;
      LeftmostTop(t);
      ghost var l: nat := Top(t);
      while !nodes[cur].leaf
        invariant l < |chain| && h + l == |chain| && chain[l] != [] && cur == chain[l][0] && MemberOK(t, l, cur)
        decreases l
      {
        LeftmostChild(t, l);
        cur := nodes[cur].children[0];
        h, l := h + 1, l - 1;
      }
    }
  }

  // ----- facts the methods above need -----

  lemma NotBefore(t: Tree, j: nat, e: Pair)
    requires ShapeOK(t, NoHole) && Reached(t, 0, j, e.0)
    ensures |t.chain| > 0 && j < |t.chain[0]| && e !in Prefix(EntryRows(t.nodes, t.chain[0]), j)
  {
    hide UpOK, HintsOK, TopOK, LeavesOK;
    BeforeLeaf(t, j, e.0);
  }

  // One step of the climb to the next leaf: to a sibling on the right, or to the parent.
  lemma AdvanceStep(t: Tree, path: seq<NodeId>, pos: seq<nat>, l: nat, k: nat)
    requires ShapeOK(t, NoHole) && PathOK(t, path, pos, l, k) && path != []
    ensures |pos| == |path| && l + 1 < |t.chain| && k < |t.chain[l]| && pos[|pos| - 1] < |t.chain[l + 1]|
    ensures var pn := path[|path| - 1]; var p := pos[|pos| - 1];
      && pn < |t.nodes| && t.chain[l + 1][p] == pn
      && var ci := IndexOf(t.nodes[pn].children, t.chain[l][k]);
      && (ci + 1 < |t.nodes[pn].children| ==>
           && k + 1 < |t.chain[l]| && t.nodes[pn].children[ci + 1] == t.chain[l][k + 1]
           && PathOK(t, path, pos, l, k + 1))
      && (ci + 1 >= |t.nodes[pn].children| ==>
           && FirstLeaf(t, l, k + 1) == FirstLeaf(t, l + 1, p + 1)
           && PathOK(t, path[..|path| - 1], pos[..|pos| - 1], l + 1, p))
  {
    hide ShapeOK, LevelOK, UpOK, PathOK, FirstLeaf, Prefix, KidRow;
    PathPlace(t, path, pos, l, k);
    PathParent(t, path, pos, l, k);
    var pn, p := path[|path| - 1], pos[|pos| - 1];
    var ci := IndexOf(t.nodes[pn].children, t.chain[l][k]);
    ChildLeaves(t, l, p, ci);
    if ci + 1 < |t.nodes[pn].children| {
      ChildLeaves(t, l, p, ci + 1);
      PathSibling(t, path, pos, l, k, t.nodes[pn].children[ci + 1]);
    }
  }

  // A node one short below the root has a sibling on one side at least.
  lemma UnderfullChild(t: Tree, capacity: nat, path: seq<NodeId>, pos: seq<nat>, l: nat, j: nat)
    requires ShapeOK(t, NoHole) && PathOK(t, path, pos, l, j) && path != [] && capacity >= 2
    requires l < |t.chain| && j < |t.chain[l]| && SizesOK(t, capacity, None, Some(t.chain[l][j]))
    ensures |pos| == |path| && l + 1 < |t.chain| && pos[|pos| - 1] < |t.chain[l + 1]|
    ensures var pn := path[|path| - 1]; var p := pos[|pos| - 1];
      && pn < |t.nodes| && t.chain[l + 1][p] == pn
      && var ci := IndexOf(t.nodes[pn].children, t.chain[l][j]);
      && ci < |t.nodes[pn].children| && |t.nodes[pn].children| >= 2
      && (ci + 1 < |t.nodes[pn].children| ==> RebalanceReady(t, l, j, p, ci))
      && (ci > 0 ==> j > 0 && RebalanceReady(t, l, j - 1, p, ci - 1))
    ensures PathOK(t, path[..|path| - 1], pos[..|pos| - 1], l + 1, pos[|pos| - 1])
  {
    hide ShapeOK, SizesOK, LevelOK, UpOK, PathOK, RebalanceReady;
    PathParent(t, path, pos, l, j);
    var pn, p := path[|path| - 1], pos[|pos| - 1];
    var ci := IndexOf(t.nodes[pn].children, t.chain[l][j]);
    ParentSlots(t, l, j, p, ci);
    ParentApart(t, l, j, p, ci);
    HasSibling(t, capacity, l, p, t.chain[l][j]);
  }

  // A parent and two adjacent children, three different nodes.
  ghost predicate Trio(nodes: seq<Node>, p: NodeId, ci: nat) {
    && PairIn(nodes, p, ci)
    && p != nodes[p].children[ci] && p != nodes[p].children[ci + 1] &&
      nodes[p].children[ci] != nodes[p].children[ci + 1]
  }

  // The children of n are none of the three.
  ghost predicate Outside(nodes: seq<Node>, p: NodeId, ci: nat, n: NodeId)
    requires PairIn(nodes, p, ci) && n < |nodes|
  {
    forall i :: 0 <= i < |nodes[n].children| ==>
      && nodes[n].children[i] < |nodes| && nodes[n].children[i] != p
      && nodes[n].children[i] != nodes[p].children[ci] && nodes[n].children[i] != nodes[p].children[ci + 1]
  }

  lemma KidsOutside(t: Tree, l: nat, j: nat, p: nat, ci: nat, i: nat)
    requires RebalanceReady(t, l, j, p, ci) && (i == j || i == j + 1)
    ensures Outside(t.nodes, t.chain[l + 1][p], ci, t.chain[l][i])
  {
    hide ShapeOK, UpOK, HintsOK, LeafOK, HintOK, Distinct;
    SiblingsApart(t, l, j, p, ci);
    var n := t.chain[l][i];
    forall k | 0 <= k < |t.nodes[n].children|
      ensures t.nodes[n].children[k] < |t.nodes| && t.level[t.nodes[n].children[k]] + 1 == l
    {
      ChildBound(t, l - 1, i, k);
    }
  }

  lemma ErasePath(t: Tree, j: nat, nd: Node, path: seq<NodeId>, pos: seq<nat>)
    requires ShapeOK(t, NoHole) && LeafAt(t, j) && PathOK(t, path, pos, 0, j) && nd.children == []
    requires t.nodes[t.chain[0][j]].leaf
    ensures PathOK(Rewrite(t, t.chain[0][j], nd), path, pos, 0, j)
  {
    hide UpOK, HintsOK, LeavesOK, TopOK, PathOK;
    var t' := Rewrite(t, t.chain[0][j], nd);
    forall m | 0 < m < |t.chain| ensures SameChildren(t, t', m) {
      assert LevelOK(t, m);
      forall i | 0 <= i < |t.chain[m]| ensures t.chain[m][i] < |t.nodes| { assert MemberOK(t, m, t.chain[m][i]); }
    }
    PathKept(t, t', path, pos, 0, j);
  }

  lemma InnerRoot(t: Tree)
    requires ShapeOK(t, NoHole) && t.root < |t.nodes| && !t.nodes[t.root].leaf
    ensures |t.chain| > 1
  {
    hide UpOK, HintsOK, LeavesOK;
    assert LevelOK(t, Top(t)) && MemberOK(t, Top(t), t.chain[Top(t)][0]);
  }

  lemma AllLevels(t: Tree)
    requires ShapeOK(t, NoHole)
    ensures forall m :: 0 <= m < |t.chain| ==> LevelOK(t, m)
  {
  }

  // The siblings of child ci, where there are any, stand next to it in its level.
  lemma ParentSlots(t: Tree, l: nat, j: nat, p: nat, ci: nat)
    requires ShapeOK(t, NoHole) && l + 1 < |t.chain| && p < |t.chain[l + 1]| && MemberOK(t, l + 1, t.chain[l + 1][p])
    requires LevelOK(t, l) && LevelOK(t, l + 1) && UpOK(t, l, NoHole) && j < |t.chain[l]|
    requires ci < |t.nodes[t.chain[l + 1][p]].children| && t.nodes[t.chain[l + 1][p]].children[ci] == t.chain[l][j]
    requires Offset(KidRows(t.nodes, t.chain[l + 1]), p) + ci == j
    ensures ci + 1 < |t.nodes[t.chain[l + 1][p]].children| ==> RebalanceReady(t, l, j, p, ci)
    ensures ci > 0 ==> RebalanceReady(t, l, j - 1, p, ci - 1)
  {
    hide ShapeOK, LevelOK, UpOK, RebalanceReady, Prefix;
    ChildBound(t, l, p, ci);
    if ci + 1 < |t.nodes[t.chain[l + 1][p]].children| {
      ChildBound(t, l, p, ci + 1);
      SiblingsReady(t, l, j, p, ci);
    }
    if ci > 0 {
      ChildBound(t, l, p, ci - 1);
      SiblingsReady(t, l, j - 1, p, ci - 1);
    }
  }

  lemma ParentApart(t: Tree, l: nat, j: nat, p: nat, ci: nat)
    requires l + 1 < |t.chain| && p < |t.chain[l + 1]| && MemberOK(t, l + 1, t.chain[l + 1][p])
    requires LevelOK(t, l) && j < |t.chain[l]|
    ensures t.chain[l + 1][p] != t.chain[l][j]
  {
    assert MemberOK(t, l, t.chain[l][j]);
  }

  lemma RootPath(t: Tree, key: Key)
    requires ShapeOK(t, NoHole)
    ensures PathOK(t, [], [], Top(t), 0) && t.root < |t.nodes| && AtMost(key, t.nodes[t.root].high)
  {
    hide UpOK, HintsOK, LeavesOK;
    assert LevelOK(t, Top(t)) && ThreadOK(t.nodes, t.chain[Top(t)], 0);
  }

  lemma PathPlace(t: Tree, path: seq<NodeId>, pos: seq<nat>, l: nat, j: nat)
    requires PathOK(t, path, pos, l, j)
    ensures l < |t.chain| && j < |t.chain[l]|
  {
  }

  lemma LeafIsFirst(t: Tree, j: nat)
    requires |t.chain| > 0 && j <= |t.chain[0]|
    ensures FirstLeaf(t, 0, j) == j
  {
  }

  // The path to a node leads to its siblings as well.
  lemma PathSibling(t: Tree, path: seq<NodeId>, pos: seq<nat>, l: nat, k: nat, c: NodeId)
    requires PathOK(t, path, pos, l, k) && path != []
    requires path[|path| - 1] < |t.nodes| && c in t.nodes[path[|path| - 1]].children
    requires l < |t.chain| && k + 1 < |t.chain[l]| && t.chain[l][k + 1] == c
    ensures PathOK(t, path, pos, l, k + 1)
  {
  }

  // The places of a key in a sorted node.
  lemma KeyRange(keys: seq<Key>, key: Key)
    requires Sorted(keys)
    ensures LowerBound(keys, key) <= UpperBound(keys, key)
    ensures forall i :: 0 <= i < |keys| ==> (keys[i] == key <==> LowerBound(keys, key) <= i < UpperBound(keys, key))
  {
    var lo, hi := LowerBound(keys, key), UpperBound(keys, key);
    forall i | 0 <= i < |keys| ensures keys[i] == key <==> lo <= i < hi {
      assert i < lo ==> keys[i] <= keys[lo - 1];
      assert lo <= i ==> keys[lo] <= keys[i];
      assert i < hi ==> keys[i] <= keys[hi - 1];
      assert hi <= i ==> keys[hi] <= keys[i];
    }
  }

  // The first leaf that holds a pair holds its first copy.
  lemma FirstCopy(t: Tree, j: nat, at: nat, e: Pair)
    requires ShapeOK(t, NoHole) && |t.chain| > 0 && j < |t.chain[0]| && t.chain[0][j] < |t.nodes|
    requires e !in Prefix(EntryRows(t.nodes, t.chain[0]), j)
    requires at < |t.nodes[t.chain[0][j]].keys| && EntryRow(t.nodes[t.chain[0][j]])[at] == e
    requires forall i :: 0 <= i < at ==> EntryRow(t.nodes[t.chain[0][j]])[i] != e
    ensures e in Entries(t) && IndexOf(Entries(t), e) == Offset(EntryRows(t.nodes, t.chain[0]), j) + at
  {
    hide ShapeOK, Prefix, Flatten, Entries;
    var rows := EntryRows(t.nodes, t.chain[0]);
    EntriesAround(t, j);
    FirstIn(Prefix(rows, j), rows[j], Suffix(rows, j + 1), at, e);
  }

  lemma FirstIn(a: seq<Pair>, b: seq<Pair>, c: seq<Pair>, at: nat, e: Pair)
    requires e !in a && at < |b| && b[at] == e && forall i :: 0 <= i < at ==> b[i] != e
    ensures e in a + b + c && IndexOf(a + b + c, e) == |a| + at
  {
    var s := a + b + c;
    assert s[|a| + at] == e;
    forall i | 0 <= i < |a| + at ensures s[i] != e {
      assert i >= |a| ==> s[i] == b[i - |a|];
    }
  }

  lemma NotInLeaf(t: Tree, j: nat, e: Pair)
    requires |t.chain| > 0 && j < |t.chain[0]| && t.chain[0][j] < |t.nodes|
    requires e !in Prefix(EntryRows(t.nodes, t.chain[0]), j)
    requires forall i :: 0 <= i < |t.nodes[t.chain[0][j]].keys| ==> EntryRow(t.nodes[t.chain[0][j]])[i] != e
    ensures e !in Prefix(EntryRows(t.nodes, t.chain[0]), j + 1)
  {
    EntriesAround(t, j);
  }

  // Beyond a larger key there is no copy.
  lemma NotBeyond(t: Tree, j: nat, q: nat, e: Pair)
    requires ShapeOK(t, NoHole) && |t.chain| > 0 && j < |t.chain[0]| && t.chain[0][j] < |t.nodes|
    requires q < |t.nodes[t.chain[0][j]].keys| && e.0 < t.nodes[t.chain[0][j]].keys[q]
    requires e !in Prefix(EntryRows(t.nodes, t.chain[0]), j)
    requires forall i :: 0 <= i < q ==> EntryRow(t.nodes[t.chain[0][j]])[i] != e
    ensures e !in Entries(t)
  {
    hide ShapeOK, Prefix, Flatten, Entries;
    var rows := EntryRows(t.nodes, t.chain[0]);
    EntriesAround(t, j);
    AboveFrom(t, j, q, e.0);
    var es := Entries(t);
    forall i | 0 <= i < |es| ensures es[i] != e {
      if i < Offset(rows, j) {
        assert es[i] == Prefix(rows, j)[i];
      } else if i < Offset(rows, j) + q {
        assert es[i] == rows[j][i - Offset(rows, j)];
      }
    }
  }

  lemma LastScannedAll(t: Tree, j: nat)
    requires |t.chain| > 0 && j + 1 == |t.chain[0]|
    ensures Entries(t) == Prefix(EntryRows(t.nodes, t.chain[0]), j + 1)
  {
  }

  // The next leaf holds nothing smaller than the key that its left neighbour covers.
  lemma NextCovers(t: Tree, capacity: nat, j: nat, key: Key)
    requires ShapeOK(t, NoHole) && SizesOK(t, capacity, None, None) && capacity >= 2 && 0 < j < |t.chain[0]|
    requires t.chain[0][j - 1] < |t.nodes| && AtMost(key, t.nodes[t.chain[0][j - 1]].high)
    ensures t.chain[0][j] < |t.nodes| && AtMost(key, t.nodes[t.chain[0][j]].high)
    ensures t.nodes[t.chain[0][j]].keys != [] && key <= t.nodes[t.chain[0][j]].keys[0]
  {
    hide UpOK, HintsOK, TopOK;
    assert LevelOK(t, 0) && MemberOK(t, 0, t.chain[0][j]);
    assert ThreadOK(t.nodes, t.chain[0], j - 1) && LeafOK(t.nodes, t.chain[0], j);
    Sized(t, capacity, None, None, 0, j);
    LeafNotSole(t, j);
  }

  lemma LeafNotSole(t: Tree, j: nat)
    requires ShapeOK(t, NoHole) && 0 < j < |t.chain[0]|
    ensures !Sole(t, t.chain[0][j])
  {
    hide UpOK, HintsOK, LeavesOK;
    assert LevelOK(t, 0) && LevelOK(t, Top(t));
    if Top(t) > 0 { NotSole(t, 0, j); }
  }

  lemma OverFull(t: Tree, capacity: nat, l: nat, j: nat, n: NodeId)
    requires SizesOK(t, capacity, Some(n), None) && l < |t.chain| && j < |t.chain[l]| && t.chain[l][j] == n
    requires n < |t.nodes| && |t.nodes[n].keys| > capacity
    ensures |t.nodes[n].keys| == capacity + 1
  {
    Sized(t, capacity, Some(n), None, l, j);
  }

  lemma SplitLeafSizes(t: Tree, capacity: nat, j: nat)
    requires ShapeOK(t, NoHole) && LeafAt(t, j) && SizesOK(t, capacity, Some(t.chain[0][j]), None) && capacity >= 2
    requires |t.nodes[t.chain[0][j]].keys| == capacity + 1
    ensures SizesOK(SplitLeaf(t, j), capacity, None, None)
  {
    hide ShapeOK, SizesOK;
    var n := t.chain[0][j];
    SplitLeafRegroups(t, j);
    HalvesFull(|t.nodes[n].keys|, capacity);
    SplitSizes(t, SplitLeaf(t, j), capacity, 0, j);
  }

  lemma SplitInnerSizes(t: Tree, capacity: nat, l: nat, j: nat)
    requires SplitInnerReady(t, l, j) && ShapeOK(t, NoHole)
    requires SizesOK(t, capacity, Some(t.chain[l][j]), None) && capacity >= 2
    requires |t.nodes[t.chain[l][j]].keys| == capacity + 1
    ensures SizesOK(SplitInner(t, l, j), capacity, None, None)
  {
    hide SizesOK, UpOK, HintsOK, TopOK, LeavesOK, LevelOK, Regrouped;
    var n := t.chain[l][j];
    var t' := SplitInner(t, l, j);
    SplitInnerRegroups(t, l, j);
    SplitInnerEnds(t, l, j);
    HalvesFull(|t.nodes[n].keys|, capacity);
    forall m | 0 <= m < |t.nodes| && m != n ensures SameSize(t, t', m) { SplitInnerNodes(t, l, j, m); }
    SplitSizes(t, t', capacity, l, j);
  }

  // The node that was split keeps its own hint: it is not among the children that moved.
  lemma SplitKeepsHint(t: Tree, l: nat, j: nat)
    requires SplitInnerReady(t, l, j)
    ensures t.chain[l][j] < |SplitInner(t, l, j).nodes|
    ensures SplitInner(t, l, j).nodes[t.chain[l][j]].hint == t.nodes[t.chain[l][j]].hint
  {
    SplitInnerEnds(t, l, j);
  }

  lemma MovedInRange(t: Tree, l: nat, j: nat)
    requires SplitInnerReady(t, l, j)
    ensures forall c :: c in InnerRight(t.nodes[t.chain[l][j]]).children ==> c < |t.nodes|
  {
  }

  lemma InnerReady(t: Tree, l: nat, j: nat)
    requires ShapeOK(t, NoHole) && 0 < l < |t.chain| && j < |t.chain[l]|
    requires t.chain[l][j] < |t.nodes| && |t.nodes[t.chain[l][j]].keys| > 0
    ensures SplitInnerReady(t, l, j)
  {
    hide LeavesOK, TopOK;
    assert LevelOK(t, l) && LevelOK(t, l - 1) && UpOK(t, l - 1, NoHole) && HintsOK(t, l);
    assert MemberOK(t, l, t.chain[l][j]) && HintOK(t.nodes, t.chain[l][j]);
  }

  // A node with a hint is not on the top level.
  lemma HintBelowTop(t: Tree, l: nat, j: nat)
    requires ShapeOK(t, HoleAt(l, j)) && l < |t.chain| && j + 1 < |t.chain[l]| && t.chain[l][j] < |t.nodes|
    requires t.nodes[t.chain[l][j]].hint.Some?
    ensures l + 1 < |t.chain|
  {
    hide LevelOK, UpOK, HintsOK, LeavesOK;
  }

  lemma SplitChain(t: Tree, l: nat, j: nat)
    requires SplitInnerReady(t, l, j)
    ensures var t' := SplitInner(t, l, j);
      && |t'.chain| == |t.chain| && j + 1 < |t'.chain[l]|
      && t'.chain[l][j] == t.chain[l][j] && t'.chain[l][j + 1] == |t.nodes|
  {
  }

  // The two halves of a split root are all of the top level.
  lemma RootHalves(t: Tree, l: nat, j: nat)
    requires ShapeOK(t, HoleAt(l, j)) && l < |t.chain| && j + 1 < |t.chain[l]| && l == Top(t) && j == 0
    ensures t.chain[l] == [t.chain[l][0], t.chain[l][1]]
    ensures t.chain[l][0] < |t.nodes| && t.chain[l][1] < |t.nodes|
  {
    hide UpOK, HintsOK, LeavesOK;
    assert LevelOK(t, l) && MemberOK(t, l, t.chain[l][0]) && MemberOK(t, l, t.chain[l][1]);
  }

  lemma GrowRootLevelOK(t: Tree)
    requires |t.chain| > 0 && ShapeOK(t, HoleAt(Top(t), 0))
    ensures LevelOK(t, Top(t))
  {
    hide LevelOK, UpOK, HintsOK, LeavesOK;
  }

  lemma SpliceIs(t: Tree, l: nat, j: nat, p: nat, ci: nat)
    requires SpliceReady(t, l, j, p, ci)
    ensures var pn, c, r := t.chain[l + 1][p], t.chain[l][j], t.chain[l][j + 1]; var nd := t.nodes[pn];
      && pn != r
      && var nodes := t.nodes[pn := nd.(keys := InsertAt(nd.keys, ci, t.nodes[c].high.value),
                                        children := InsertAt(nd.children, ci + 1, r))];
      SpliceAt(t, l, j, p, ci) == t.(nodes := nodes[r := nodes[r].(hint := Some(pn))])
  {
  }

  // A key sent to a leaf lies within the leaf's bounds, and where the leaf search puts it
  // is its place in the whole.
  lemma LeafTarget(t: Tree, j: nat, key: Key, id: InternalId)
    requires ShapeOK(t, NoHole) && Reached(t, 0, j, key) && AtMost(key, t.nodes[t.chain[0][j]].high)
    ensures LeafAt(t, j) && t.nodes[t.chain[0][j]].leaf
    ensures var n := t.chain[0][j]; var t' := Rewrite(t, n, WithEntry(t.nodes[n], key, id));
      ShapeOK(t', NoHole) && Entries(t') == Added(Entries(t), key, id) && LeafAt(t', j)
  {
    hide ShapeOK, LevelOK, UpOK, LeavesOK, Entries, EntryRows;
    TargetBounds(t, j, key);
    WriteLeafShape(t, j, key, id);
    PlaceIsBelow(t, j, key);
    RewriteLevels(t, j, WithEntry(t.nodes[t.chain[0][j]], key, id), 0);
  }

  lemma TargetBounds(t: Tree, j: nat, key: Key)
    requires ShapeOK(t, NoHole) && Reached(t, 0, j, key)
    ensures LeafAt(t, j) && AtLeast(LowOf(t.nodes, t.chain[0], j), key)
  {
    hide UpOK, HintsOK, LeavesOK, TopOK, LevelOK;
  }

  lemma EmptyTree(capacity: nat)
    requires capacity >= 2
    ensures var t := Tree([EMPTY_LEAF], 0, [[0]], [0]);
      ShapeOK(t, NoHole) && SizesOK(t, capacity, None, None) && Entries(t) == []
  {
    var t := Tree([EMPTY_LEAF], 0, [[0]], [0]);
    EmptyLevel(t);
    hide LevelOK, LeavesOK, HintsOK, Entries;
  }

  lemma EmptyLevel(t: Tree)
    requires t == Tree([EMPTY_LEAF], 0, [[0]], [0])
    ensures LevelOK(t, 0) && LeavesOK(t) && HintsOK(t, 0) && Entries(t) == []
  {
    assert EntryRows(t.nodes, t.chain[0]) == [EntryRow(EMPTY_LEAF)];
    FlattenOne(EntryRow(EMPTY_LEAF));
    assert MemberOK(t, 0, 0) && ThreadOK(t.nodes, t.chain[0], 0) && LeafOK(t.nodes, t.chain[0], 0);
    LeafHints(t);
  }

  lemma HopsReached(t: Tree, l: nat, j: nat, k: nat, key: Key)
    requires Reached(t, l, j, key) && j <= k < |t.chain[l]|
    requires forall i :: j <= i < k ==>
      && t.chain[l][i] < |t.nodes| && t.nodes[t.chain[l][i]].high.Some? && t.nodes[t.chain[l][i]].high.value < key
    ensures Reached(t, l, k, key)
  {
    assert MemberOK(t, l, t.chain[l][k]);
    if j < k { assert t.chain[l][k - 1] < |t.nodes|; }
  }

  lemma LevelBelow(t: Tree, l: nat, k: nat)
    requires ShapeOK(t, NoHole) && l < |t.chain| && k < |t.chain[l]|
    requires t.chain[l][k] < |t.nodes| && !t.nodes[t.chain[l][k]].leaf
    ensures l > 0 && LevelOK(t, l - 1) && UpOK(t, l - 1, NoHole)
  {
    hide UpOK, HintsOK, TopOK, LeavesOK;
    assert LevelOK(t, l) && MemberOK(t, l, t.chain[l][k]);
    assert LevelOK(t, l - 1) && UpOK(t, l - 1, NoHole);
  }

  lemma NotEmpty(t: Tree)
    requires ShapeOK(t, NoHole)
    ensures |t.chain| > 0 && LevelOK(t, 0)
  {
  }

  // The entries of a leaf at places i up to k.
  function Row(nd: Node, i: nat, k: nat): seq<Pair>
    requires i <= k <= |nd.keys|
  {
    EntryRow(nd)[i..k]
  }

  lemma RowWhole(nd: Node)
    ensures Row(nd, 0, |nd.keys|) == EntryRow(nd)
  {
  }

  lemma ScanStart(nd: Node, lo: Key, hi: Key)
    requires Sorted(nd.keys)
    ensures Select(Row(nd, 0, LowerBound(nd.keys, lo)), lo, hi) == []
  {
    var it := LowerBound(nd.keys, lo);
    forall i | 0 <= i < it ensures Row(nd, 0, it)[i].0 < lo { assert nd.keys[i] <= nd.keys[it - 1]; }
    SelectNone(Row(nd, 0, it), lo, hi);
  }

  lemma ScanTakes(nd: Node, it: nat, lo: Key, hi: Key)
    requires NodeOK(nd) && nd.leaf && it < |nd.keys| && lo <= nd.keys[it] <= hi
    ensures Select(Row(nd, 0, it + 1), lo, hi) == Select(Row(nd, 0, it), lo, hi) + [(nd.keys[it], nd.values[it])]
  {
    assert Row(nd, 0, it + 1)[..it] == Row(nd, 0, it);
  }

  lemma ScanStops(nd: Node, it: nat, lo: Key, hi: Key)
    requires NodeOK(nd) && nd.leaf && Sorted(nd.keys) && it < |nd.keys| && nd.keys[it] > hi
    ensures Select(EntryRow(nd), lo, hi) == Select(Row(nd, 0, it), lo, hi)
  {
    hide Select;
    var rest := Row(nd, it, |nd.keys|);
    forall i | 0 <= i < |rest| ensures hi < rest[i].0 { assert nd.keys[it] <= nd.keys[it + i]; }
    SelectNone(rest, lo, hi);
    SelectConcat(Row(nd, 0, it), rest, lo, hi);
    assert EntryRow(nd) == Row(nd, 0, it) + rest;
  }

  lemma ScanStep(nd: Node, it: nat, lo: Key, hi: Key)
    requires NodeOK(nd) && nd.leaf && Sorted(nd.keys) && LowerBound(nd.keys, lo) <= it < |nd.keys|
    ensures nd.keys[it] <= hi ==>
      Select(Row(nd, 0, it + 1), lo, hi) == Select(Row(nd, 0, it), lo, hi) + [(nd.keys[it], nd.values[it])]
    ensures nd.keys[it] > hi ==> Select(EntryRow(nd), lo, hi) == Select(Row(nd, 0, it), lo, hi)
  {
    hide Select, Row, EntryRow, NodeOK;
    assert lo <= nd.keys[LowerBound(nd.keys, lo)] <= nd.keys[it];
    if nd.keys[it] <= hi { ScanTakes(nd, it, lo, hi); } else { ScanStops(nd, it, lo, hi); }
  }

  lemma FirstScanned(t: Tree, j: nat, lo: Key, hi: Key)
    requires ShapeOK(t, NoHole) && Reached(t, 0, j, lo)
    ensures |t.chain| > 0 && LevelOK(t, 0)
    ensures Select(Prefix(EntryRows(t.nodes, t.chain[0]), j), lo, hi) == []
  {
    hide UpOK, HintsOK, TopOK, LeavesOK;
    BeforeLeaf(t, j, lo);
    SelectNone(Prefix(EntryRows(t.nodes, t.chain[0]), j), lo, hi);
  }

  lemma SkipTo(t: Tree, j: nat, k: nat, lo: Key, hi: Key)
    requires ShapeOK(t, NoHole) && |t.chain| > 0 && j <= k < |t.chain[0]|
    requires forall i :: j <= i < k ==>
      && t.chain[0][i] < |t.nodes|
      && t.nodes[t.chain[0][i]].high.Some? && t.nodes[t.chain[0][i]].high.value < lo
    ensures var rows := EntryRows(t.nodes, t.chain[0]);
      Select(Prefix(rows, k), lo, hi) == Select(Prefix(rows, j), lo, hi)
  {
    assert LevelOK(t, 0);
    LeavesSkipped(t, j, k, lo, hi);
  }

  lemma LeafScanned(t: Tree, j: nat, lo: Key, hi: Key)
    requires ShapeOK(t, NoHole) && |t.chain| > 0 && j < |t.chain[0]|
    ensures MemberOK(t, 0, t.chain[0][j]) && Sorted(t.nodes[t.chain[0][j]].keys)
    ensures var rows := EntryRows(t.nodes, t.chain[0]);
      Select(Prefix(rows, j + 1), lo, hi) ==
        Select(Prefix(rows, j), lo, hi) + Select(EntryRow(t.nodes[t.chain[0][j]]), lo, hi)
  {
    hide UpOK, HintsOK, TopOK, Select;
    assert LevelOK(t, 0) && MemberOK(t, 0, t.chain[0][j]) && LeafOK(t.nodes, t.chain[0], j);
    LeafAdds(t, j, lo, hi);
  }

  lemma LastScanned(t: Tree, j: nat)
    requires ShapeOK(t, NoHole) && |t.chain| > 0 && j < |t.chain[0]|
    requires t.chain[0][j] < |t.nodes| && t.nodes[t.chain[0][j]].right.None?
    ensures Entries(t) == Prefix(EntryRows(t.nodes, t.chain[0]), j + 1)
  {
    hide UpOK, HintsOK, TopOK;
    assert LevelOK(t, 0) && ThreadOK(t.nodes, t.chain[0], j);
  }

  lemma NextLeaf(t: Tree, j: nat)
    requires ShapeOK(t, NoHole) && |t.chain| > 0 && 0 < j <= |t.chain[0]|
    requires t.chain[0][j - 1] < |t.nodes| && t.nodes[t.chain[0][j - 1]].right.Some?
    ensures j < |t.chain[0]| && t.nodes[t.chain[0][j - 1]].right.value == t.chain[0][j]
    ensures t.chain[0][j] < |t.nodes|
  {
    hide UpOK, HintsOK, TopOK;
    assert LevelOK(t, 0) && ThreadOK(t.nodes, t.chain[0], j - 1);
    assert MemberOK(t, 0, t.chain[0][j]);
  }

  lemma LeftmostTop(t: Tree)
    requires ShapeOK(t, NoHole)
    ensures t.chain[Top(t)] != [] && t.chain[Top(t)][0] == t.root && MemberOK(t, Top(t), t.root)
  {
    hide UpOK, HintsOK, LeavesOK;
    assert LevelOK(t, Top(t)) && MemberOK(t, Top(t), t.chain[Top(t)][0]);
  }

  lemma LeftmostChild(t: Tree, l: nat)
    requires ShapeOK(t, NoHole) && l < |t.chain| && t.chain[l] != [] && MemberOK(t, l, t.chain[l][0])
    requires !t.nodes[t.chain[l][0]].leaf
    ensures l > 0 && t.chain[l - 1] != [] && t.nodes[t.chain[l][0]].children != []
    ensures t.nodes[t.chain[l][0]].children[0] == t.chain[l - 1][0] && MemberOK(t, l - 1, t.chain[l - 1][0])
  {
    hide ShapeOK, LevelOK, UpOK, Flatten, KidRow;
    LevelBelow(t, l, 0);
    LevelHere(t, l);
    ChildBound(t, l - 1, 0, 0);
  }

  lemma LevelHere(t: Tree, l: nat)
    requires ShapeOK(t, NoHole) && l < |t.chain|
    ensures LevelOK(t, l)
  {
  }

  lemma {:induction false} SelectMatches(es: seq<Pair>, lo: Key, hi: Key)
    ensures forall i :: 0 <= i < |Select(es, lo, hi)| ==> lo <= Select(es, lo, hi)[i].0 <= hi
  {
    if es != [] { SelectMatches(es[..|es| - 1], lo, hi); }
  }
}
