/** Finding one's way in a sequential tree: routing by key, the order of the contents, the
    neighbours of a leaf, and a node's ancestors. */
module BPlusRead {
  import opened Basics
  import opened TreeKeys
  import opened Sequences
  import opened SortedPairs
  import opened BPlusShape

  // ----- routing -----

  // Everything left of place j of level l is bounded below `key`.
  ghost predicate Reached(t: Tree, l: nat, j: nat, key: Key) {
    && l < |t.chain| && j < |t.chain[l]| && LevelOK(t, l) && MemberOK(t, l, t.chain[l][j])
    && (j > 0 ==> t.chain[l][j - 1] < |t.nodes| && t.nodes[t.chain[l][j - 1]].high.Some?
                  && t.nodes[t.chain[l][j - 1]].high.value < key)
  }

  lemma RootReached(t: Tree, key: Key)
    requires ShapeOK(t, NoHole)
    ensures Reached(t, Top(t), 0, key) && t.chain[Top(t)][0] == t.root
  {
    assert LevelOK(t, Top(t)) && MemberOK(t, Top(t), t.chain[Top(t)][0]);
  }

  // Child ci of a node stands in the level below, bounded by separator ci.
  lemma ChildBound(t: Tree, l: nat, j: nat, ci: nat)
    requires l + 1 < |t.chain| && LevelOK(t, l) && LevelOK(t, l + 1) && UpOK(t, l, NoHole)
    requires j < |t.chain[l + 1]| && t.chain[l + 1][j] < |t.nodes| && ci < |t.nodes[t.chain[l + 1][j]].children|
    ensures var nd := t.nodes[t.chain[l + 1][j]]; var k := Offset(KidRows(t.nodes, t.chain[l + 1]), j) + ci;
      && k < |t.chain[l]| && t.chain[l][k] == nd.children[ci] && MemberOK(t, l, nd.children[ci])
      && t.nodes[nd.children[ci]].high == (if ci < |nd.keys| then Some(nd.keys[ci]) else nd.high)
  {
    hide LevelOK, UpOK, Flatten;
    ChildMember(t, l, NoHole, j, ci);
  }

  // What lies left of the child a key is sent to is bounded below the key.
  lemma LeftOfChild(t: Tree, l: nat, j: nat, key: Key, ci: nat)
    requires l + 1 < |t.chain| && LevelOK(t, l) && UpOK(t, l, NoHole) && Reached(t, l + 1, j, key)
    requires ci < |t.nodes[t.chain[l + 1][j]].children| && ci == LowerBound(t.nodes[t.chain[l + 1][j]].keys, key)
    requires Offset(KidRows(t.nodes, t.chain[l + 1]), j) + ci < |t.chain[l]|
    ensures var k := Offset(KidRows(t.nodes, t.chain[l + 1]), j) + ci;
      k > 0 ==> t.chain[l][k - 1] < |t.nodes| && t.nodes[t.chain[l][k - 1]].high.Some?
                && t.nodes[t.chain[l][k - 1]].high.value < key
  {
    hide UpOK, Flatten, KidRow;
    if ci > 0 { ChildBound(t, l, j, ci - 1); } else if j > 0 { LastChild(t, l, j - 1); }
  }

  // `child_index_` sends a key to the child whose bounds hold it.
  lemma ChildReached(t: Tree, l: nat, j: nat, key: Key) returns (k: nat)
    requires l + 1 < |t.chain| && LevelOK(t, l) && UpOK(t, l, NoHole)
    requires Reached(t, l + 1, j, key) && AtMost(key, t.nodes[t.chain[l + 1][j]].high)
    ensures var nd := t.nodes[t.chain[l + 1][j]]; var ci := LowerBound(nd.keys, key);
      && ci < |nd.children| && k == Offset(KidRows(t.nodes, t.chain[l + 1]), j) + ci
      && k < |t.chain[l]| && t.chain[l][k] == nd.children[ci]
    ensures Reached(t, l, k, key) && AtMost(key, t.nodes[t.chain[l][k]].high)
  {
    hide LevelOK, UpOK, Flatten, KidRow, Prefix;
    var nd := t.nodes[t.chain[l + 1][j]];
    var ci := LowerBound(nd.keys, key);
    ChildBound(t, l, j, ci);
    LeftOfChild(t, l, j, key, ci);
    k := Offset(KidRows(t.nodes, t.chain[l + 1]), j) + ci;
  }

  // The last child of a node is bounded as the node is.
  lemma LastChild(t: Tree, l: nat, j: nat)
    requires l + 1 < |t.chain| && LevelOK(t, l) && LevelOK(t, l + 1) && UpOK(t, l, NoHole) && j < |t.chain[l + 1]|
    ensures t.chain[l + 1][j] < |t.nodes| && |t.nodes[t.chain[l + 1][j]].children| > 0
    ensures var k := Offset(KidRows(t.nodes, t.chain[l + 1]), j + 1);
      && 0 < k <= |t.chain[l]| && t.chain[l][k - 1] < |t.nodes|
      && t.nodes[t.chain[l][k - 1]].high == t.nodes[t.chain[l + 1][j]].high
      && k == Offset(KidRows(t.nodes, t.chain[l + 1]), j) + |t.nodes[t.chain[l + 1][j]].children|
  {
    var nd := t.nodes[t.chain[l + 1][j]];
    assert MemberOK(t, l + 1, t.chain[l + 1][j]);
    ChildMember(t, l, NoHole, j, |nd.children| - 1);
  }

  // ----- the order of the contents -----

  // Two leaves: what the left one holds does not exceed its bound, nor that bound what
  // the right one holds.
  lemma {:induction false} LeafAfter(t: Tree, i: nat, j: nat)
    requires |t.chain| > 0 && LevelOK(t, 0) && LeavesOK(t) && i < j < |t.chain[0]|
    ensures t.chain[0][i] < |t.nodes| && t.chain[0][j] < |t.nodes| && t.nodes[t.chain[0][i]].high.Some?
    ensures LowOf(t.nodes, t.chain[0], j).Some?
    ensures t.nodes[t.chain[0][i]].high.value <= LowOf(t.nodes, t.chain[0], j).value
    decreases j - i
  {
    assert ThreadOK(t.nodes, t.chain[0], i) && MemberOK(t, 0, t.chain[0][i]) && MemberOK(t, 0, t.chain[0][j]);
    if i + 1 < j {
      LeafAfter(t, i + 1, j);
      assert LeafOK(t.nodes, t.chain[0], i + 1);
    }
  }

  lemma EntryLeaf(t: Tree, k: nat) returns (i: nat, e: nat)
    requires |t.chain| > 0 && LevelOK(t, 0) && k < |Entries(t)|
    ensures i < |t.chain[0]| && t.chain[0][i] < |t.nodes| && e < |t.nodes[t.chain[0][i]].keys|
    ensures Offset(EntryRows(t.nodes, t.chain[0]), i) + e == k
    ensures |t.nodes[t.chain[0][i]].values| == |t.nodes[t.chain[0][i]].keys|
    ensures Entries(t)[k] == (t.nodes[t.chain[0][i]].keys[e], t.nodes[t.chain[0][i]].values[e])
  {
    i, e := Locate(EntryRows(t.nodes, t.chain[0]), k);
    assert MemberOK(t, 0, t.chain[0][i]);
    FlattenIndex(EntryRows(t.nodes, t.chain[0]), i, e);
  }

  lemma {:induction false} OffsetGrows<T>(rows: seq<seq<T>>, i: nat, j: nat)
    requires i <= j <= |rows|
    ensures Offset(rows, i) <= Offset(rows, j)
  {
    if i < j { OffsetGrows(rows, i, j - 1); }
  }

  lemma LeafKeysOrdered(t: Tree, i: nat, e: nat, j: nat, f: nat)
    requires |t.chain| > 0 && LevelOK(t, 0) && LeavesOK(t) && i < |t.chain[0]| && j < |t.chain[0]|
    requires t.chain[0][i] < |t.nodes| && e < |t.nodes[t.chain[0][i]].keys|
    requires t.chain[0][j] < |t.nodes| && f < |t.nodes[t.chain[0][j]].keys|
    requires i < j || (i == j && e <= f)
    ensures t.nodes[t.chain[0][i]].keys[e] <= t.nodes[t.chain[0][j]].keys[f]
  {
    assert LeafOK(t.nodes, t.chain[0], i) && LeafOK(t.nodes, t.chain[0], j);
    if i < j { LeafAfter(t, i, j); }
  }

  // A smaller place is in the same row or in an earlier one.
  lemma PlacesOrdered<T>(rows: seq<seq<T>>, i: nat, e: nat, j: nat, f: nat)
    requires i < |rows| && e < |rows[i]| && j < |rows| && f <= |rows[j]|
    ensures Offset(rows, i) + e < Offset(rows, j) + f <==> i < j || (i == j && e < f)
  {
    if j < i { OffsetGrows(rows, j + 1, i); } else if i < j { OffsetGrows(rows, i + 1, j); }
  }

  // The contents are sorted by key.
  lemma EntriesSorted(t: Tree, a: nat, b: nat)
    requires ShapeOK(t, NoHole) && a < b < |Entries(t)|
    ensures Entries(t)[a].0 <= Entries(t)[b].0
  {
    hide LevelOK, LeavesOK, UpOK, HintsOK, TopOK, Entries, Offset;
    assert LevelOK(t, 0) && LeavesOK(t);
    var i, e := EntryLeaf(t, a);
    var j, f := EntryLeaf(t, b);
    PlacesOrdered(EntryRows(t.nodes, t.chain[0]), i, e, j, f);
    LeafKeysOrdered(t, i, e, j, f);
  }

  // ----- places in the contents -----

  // The entries before leaf j, the leaf itself, and the rest.
  lemma EntriesAround(t: Tree, j: nat)
    requires |t.chain| > 0 && j < |t.chain[0]| && t.chain[0][j] < |t.nodes|
    ensures var rows := EntryRows(t.nodes, t.chain[0]);
      && rows[j] == EntryRow(t.nodes[t.chain[0][j]])
      && Entries(t) == Prefix(rows, j) + rows[j] + Suffix(rows, j + 1)
      && Prefix(rows, j + 1) == Prefix(rows, j) + rows[j]
  {
    FlattenAt(EntryRows(t.nodes, t.chain[0]), j);
  }

  // What lies before a leaf that a key was sent to is smaller than the key.
  lemma BeforeLeaf(t: Tree, j: nat, key: Key)
    requires ShapeOK(t, NoHole) && Reached(t, 0, j, key)
    ensures forall k :: 0 <= k < |Prefix(EntryRows(t.nodes, t.chain[0]), j)| ==>
      Prefix(EntryRows(t.nodes, t.chain[0]), j)[k].0 < key
  {
    hide Prefix, UpOK, HintsOK, TopOK;
    var rows := EntryRows(t.nodes, t.chain[0]);
    EntriesAround(t, j);
    assert rows[j] == EntryRow(t.nodes[t.chain[0][j]]) && |rows| == |t.chain[0]|;
    forall k | 0 <= k < |Prefix(rows, j)| ensures Prefix(rows, j)[k].0 < key {
      var i, e := EntryLeaf(t, k);
      assert |rows[i]| == |t.nodes[t.chain[0][i]].keys|;
      PlacesOrdered(rows, i, e, j, 0);
      LeafAfter(t, i, j);
      assert LeafOK(t.nodes, t.chain[0], i);
    }
  }

  // What comes before the place the leaf search gives is smaller than the key.
  lemma AllBelow(t: Tree, j: nat, key: Key)
    requires ShapeOK(t, NoHole) && Reached(t, 0, j, key)
    requires NodeOK(t.nodes[t.chain[0][j]]) && t.nodes[t.chain[0][j]].leaf
    ensures var k := Offset(EntryRows(t.nodes, t.chain[0]), j) + LowerBound(t.nodes[t.chain[0][j]].keys, key);
      k <= |Entries(t)| && forall i :: 0 <= i < k ==> Entries(t)[i].0 < key
  {
    hide Prefix, UpOK, HintsOK, TopOK, LowerBoundIn, LevelOK, LeavesOK, Suffix;
    assert LevelOK(t, 0) && LeavesOK(t);
    var rows := EntryRows(t.nodes, t.chain[0]);
    var nd := t.nodes[t.chain[0][j]];
    EntriesAround(t, j);
    BeforeLeaf(t, j, key);
    LeafSplitsAt(t, j, key);
    forall i | 0 <= i < Offset(rows, j) + LowerBound(nd.keys, key) ensures Entries(t)[i].0 < key {
      if i < Offset(rows, j) {
        assert Entries(t)[i] == Prefix(rows, j)[i];
      } else {
        assert Entries(t)[i] == EntryRow(nd)[i - Offset(rows, j)];
      }
    }
  }

  // Where the leaf search puts a key is its place in the whole list.
  lemma PlaceIsBelow(t: Tree, j: nat, key: Key)
    requires ShapeOK(t, NoHole) && Reached(t, 0, j, key) && AtMost(key, t.nodes[t.chain[0][j]].high)
    requires NodeOK(t.nodes[t.chain[0][j]]) && t.nodes[t.chain[0][j]].leaf
    ensures Below(Entries(t), key) ==
      Offset(EntryRows(t.nodes, t.chain[0]), j) + LowerBound(t.nodes[t.chain[0][j]].keys, key)
  {
    hide ShapeOK, Entries, Offset, LowerBoundIn, Below, AtMost;
    AllBelow(t, j, key);
    var k := Offset(EntryRows(t.nodes, t.chain[0]), j) + LowerBound(t.nodes[t.chain[0][j]].keys, key);
    if k < |Entries(t)| { NotBelow(t, j, key, k); }
    BelowIs(Entries(t), key, k);
  }

  lemma BelowIs(es: seq<Pair>, key: Key, k: nat)
    requires k <= |es| && forall i :: 0 <= i < k ==> es[i].0 < key
    requires k < |es| ==> key <= es[k].0
    ensures Below(es, key) == k
  {
  }

  lemma LeafSplitsAt(t: Tree, j: nat, key: Key)
    requires |t.chain| > 0 && LevelOK(t, 0) && LeavesOK(t) && j < |t.chain[0]|
    ensures t.chain[0][j] < |t.nodes|
    ensures var keys := t.nodes[t.chain[0][j]].keys;
      forall i :: 0 <= i < LowerBound(keys, key) ==> keys[i] < key
  {
    assert LeafOK(t.nodes, t.chain[0], j);
    var keys := t.nodes[t.chain[0][j]].keys;
    forall i | 0 <= i < LowerBound(keys, key) ensures keys[i] < key {
      assert keys[i] <= keys[LowerBound(keys, key) - 1];
    }
  }

  lemma NotBelow(t: Tree, j: nat, key: Key, k: nat)
    requires ShapeOK(t, NoHole) && Reached(t, 0, j, key) && AtMost(key, t.nodes[t.chain[0][j]].high)
    requires k == Offset(EntryRows(t.nodes, t.chain[0]), j) + LowerBound(t.nodes[t.chain[0][j]].keys, key)
    requires k < |Entries(t)|
    ensures key <= Entries(t)[k].0
  {
    hide Prefix, UpOK, HintsOK, TopOK, LowerBoundIn;
    var i, e := EntryLeaf(t, k);
    PlacesOrdered(EntryRows(t.nodes, t.chain[0]), i, e, j, LowerBound(t.nodes[t.chain[0][j]].keys, key));
    assert LeafOK(t.nodes, t.chain[0], i) && LeafOK(t.nodes, t.chain[0], j);
    if j < i { LeafAfter(t, j, i); }
  }

  // From an entry above `hi` on, everything is above it.
  lemma AboveFrom(t: Tree, j: nat, q: nat, hi: Key)
    requires ShapeOK(t, NoHole) && j < |t.chain[0]| && t.chain[0][j] < |t.nodes|
    requires q < |t.nodes[t.chain[0][j]].keys| && hi < t.nodes[t.chain[0][j]].keys[q]
    ensures var k := Offset(EntryRows(t.nodes, t.chain[0]), j) + q;
      k < |Entries(t)| && forall i :: k <= i < |Entries(t)| ==> hi < Entries(t)[i].0
  {
    hide Prefix, UpOK, HintsOK, TopOK, LevelOK, LeavesOK;
    var rows := EntryRows(t.nodes, t.chain[0]);
    var k := Offset(rows, j) + q;
    FlattenIndex(rows, j, q);
    forall i | k <= i < |Entries(t)| ensures hi < Entries(t)[i].0 {
      if k < i { EntriesSorted(t, k, i); }
    }
  }

  // A leaf bounded below `lo` has nothing to select.
  lemma LeafSkipped(t: Tree, j: nat, lo: Key, hi: Key)
    requires |t.chain| > 0 && LevelOK(t, 0) && LeavesOK(t) && j < |t.chain[0]| && t.chain[0][j] < |t.nodes|
    requires t.nodes[t.chain[0][j]].high.Some? && t.nodes[t.chain[0][j]].high.value < lo
    ensures Select(EntryRow(t.nodes[t.chain[0][j]]), lo, hi) == []
  {
    assert LeafOK(t.nodes, t.chain[0], j);
    SelectNone(EntryRow(t.nodes[t.chain[0][j]]), lo, hi);
  }

  lemma LeafAdds(t: Tree, j: nat, lo: Key, hi: Key)
    requires |t.chain| > 0 && j < |t.chain[0]| && t.chain[0][j] < |t.nodes|
    ensures var rows := EntryRows(t.nodes, t.chain[0]);
      Select(Prefix(rows, j + 1), lo, hi) ==
        Select(Prefix(rows, j), lo, hi) + Select(EntryRow(t.nodes[t.chain[0][j]]), lo, hi)
  {
    hide Select, EntryRow;
    EntriesAround(t, j);
    SelectConcat(Prefix(EntryRows(t.nodes, t.chain[0]), j), EntryRow(t.nodes[t.chain[0][j]]), lo, hi);
  }

  // Leaves from j up to k are bounded below `lo`: a scan may skip them.
  lemma {:induction false} LeavesSkipped(t: Tree, j: nat, k: nat, lo: Key, hi: Key)
    requires |t.chain| > 0 && LevelOK(t, 0) && LeavesOK(t) && j <= k <= |t.chain[0]|
    requires forall i :: j <= i < k ==>
      && t.chain[0][i] < |t.nodes|
      && t.nodes[t.chain[0][i]].high.Some? && t.nodes[t.chain[0][i]].high.value < lo
    ensures var rows := EntryRows(t.nodes, t.chain[0]);
      Select(Prefix(rows, k), lo, hi) == Select(Prefix(rows, j), lo, hi)
  {
    hide Select, Prefix, EntryRow, LevelOK, LeavesOK;
    if j < k {
      LeavesSkipped(t, j, k - 1, lo, hi);
      LeafAdds(t, k - 1, lo, hi);
      LeafSkipped(t, k - 1, lo, hi);
    }
  }

  // Once a key above `hi` was seen in leaf j, nothing after that leaf is selected.
  lemma ScanDone(t: Tree, j: nat, q: nat, lo: Key, hi: Key)
    requires ShapeOK(t, NoHole) && j < |t.chain[0]| && t.chain[0][j] < |t.nodes|
    requires q < |t.nodes[t.chain[0][j]].keys| && hi < t.nodes[t.chain[0][j]].keys[q]
    ensures Select(Entries(t), lo, hi) == Select(Prefix(EntryRows(t.nodes, t.chain[0]), j + 1), lo, hi)
  {
    hide Prefix, UpOK, HintsOK, TopOK, LevelOK, LeavesOK, Entries, Suffix;
    var rows := EntryRows(t.nodes, t.chain[0]);
    AboveFrom(t, j, q, hi);
    EntriesAround(t, j);
    var rest := Suffix(rows, j + 1);
    assert Entries(t) == Prefix(rows, j + 1) + rest;
    forall i | 0 <= i < |rest| ensures hi < rest[i].0 {
      assert rest[i] == Entries(t)[|Prefix(rows, j + 1)| + i];
    }
    SelectNone(rest, lo, hi);
    SelectConcat(Prefix(rows, j + 1), rest, lo, hi);
  }

  // ----- neighbours of a leaf -----

  // The first and the last leaf below place j of level l.
  function FirstLeaf(t: Tree, l: nat, j: nat): nat
    requires l < |t.chain| && j <= |t.chain[l]|
    decreases l
  {
    if l == 0 then j
    else
      var k := Offset(KidRows(t.nodes, t.chain[l]), j);
      if k <= |t.chain[l - 1]| then FirstLeaf(t, l - 1, k) else 0
  }

  // Subtrees of neighbours meet: nothing lies between them.
  lemma {:induction false} WholeLevel(t: Tree, l: nat)
    requires ShapeOK(t, NoHole) && l < |t.chain|
    ensures FirstLeaf(t, l, |t.chain[l]|) == |t.chain[0]|
    ensures FirstLeaf(t, l, 0) == 0
    decreases l
  {
    hide LevelOK, UpOK, HintsOK, LeavesOK, TopOK;
    if l > 0 {
      WholeLevel(t, l - 1);
      WholeRows(t, l - 1);
    }
  }

  lemma WholeRows(t: Tree, l: nat)
    requires ShapeOK(t, NoHole) && l + 1 < |t.chain|
    ensures Offset(KidRows(t.nodes, t.chain[l + 1]), |t.chain[l + 1]|) == |t.chain[l]|
  {
    hide LevelOK;
    assert UpOK(t, l, NoHole);
  }

  // The leaves below child ci of a node.
  lemma ChildLeaves(t: Tree, l: nat, p: nat, ci: nat)
    requires l + 1 < |t.chain| && LevelOK(t, l) && LevelOK(t, l + 1) && UpOK(t, l, NoHole) && p < |t.chain[l + 1]|
    requires t.chain[l + 1][p] < |t.nodes| && ci < |t.nodes[t.chain[l + 1][p]].children|
    ensures var k := Offset(KidRows(t.nodes, t.chain[l + 1]), p) + ci;
      && k < |t.chain[l]| && t.chain[l][k] == t.nodes[t.chain[l + 1][p]].children[ci]
      && MemberOK(t, l, t.chain[l][k])
      && (ci == 0 ==> FirstLeaf(t, l, k) == FirstLeaf(t, l + 1, p))
      && (ci + 1 == |t.nodes[t.chain[l + 1][p]].children| ==> FirstLeaf(t, l, k + 1) == FirstLeaf(t, l + 1, p + 1))
  {
    hide LevelOK, UpOK, Flatten, Prefix, KidRow;
    ChildBound(t, l, p, ci);
    LastChild(t, l, p);
  }

  // ----- ancestors -----

  // n, at place p of level l + 1, has c as a child.
  ghost predicate ParentOK(t: Tree, l: nat, p: nat, n: NodeId, c: NodeId) {
    l + 1 < |t.chain| && p < |t.chain[l + 1]| && t.chain[l + 1][p] == n && n < |t.nodes| && c in t.nodes[n].children
  }

  // path leads from the root to the parent of place j of level l; pos holds its places.
  ghost predicate PathOK(t: Tree, path: seq<NodeId>, pos: seq<nat>, l: nat, j: nat) {
    && l < |t.chain| && j < |t.chain[l]| && |path| == |pos|
    && if path == [] then l == Top(t)
       else
         && ParentOK(t, l, pos[|pos| - 1], path[|path| - 1], t.chain[l][j])
         && PathOK(t, path[..|path| - 1], pos[..|pos| - 1], l + 1, pos[|pos| - 1])
  }

  // Where the node stands among its parent's children.
  lemma PathParent(t: Tree, path: seq<NodeId>, pos: seq<nat>, l: nat, j: nat)
    requires ShapeOK(t, NoHole) && PathOK(t, path, pos, l, j) && path != []
    ensures |pos| == |path|
    ensures var p := pos[|pos| - 1]; var pn := path[|path| - 1];
      && l + 1 < |t.chain| && p < |t.chain[l + 1]| && t.chain[l + 1][p] == pn && MemberOK(t, l + 1, pn)
      && LevelOK(t, l) && LevelOK(t, l + 1) && UpOK(t, l, NoHole)
      && var ci := IndexOf(t.nodes[pn].children, t.chain[l][j]);
      && ci < |t.nodes[pn].children| && Offset(KidRows(t.nodes, t.chain[l + 1]), p) + ci == j
    ensures PathOK(t, path[..|path| - 1], pos[..|pos| - 1], l + 1, pos[|pos| - 1])
  {
    hide UpOK, LeavesOK, HintsOK, TopOK;
    var p, pn := pos[|pos| - 1], path[|path| - 1];
    assert LevelOK(t, l) && LevelOK(t, l + 1) && UpOK(t, l, NoHole);
    assert MemberOK(t, l + 1, t.chain[l + 1][p]);
    ChildBound(t, l, p, IndexOf(t.nodes[pn].children, t.chain[l][j]));
  }

  lemma PathStep(t: Tree, path: seq<NodeId>, pos: seq<nat>, l: nat, j: nat, k: nat)
    requires PathOK(t, path, pos, l, j) && l > 0 && k < |t.chain[l - 1]|
    requires t.chain[l][j] < |t.nodes| && t.chain[l - 1][k] in t.nodes[t.chain[l][j]].children
    ensures PathOK(t, path + [t.chain[l][j]], pos + [j], l - 1, k)
  {
    var path', pos' := path + [t.chain[l][j]], pos + [j];
    assert path'[..|path'| - 1] == path && pos'[..|pos'| - 1] == pos;
  }
}
