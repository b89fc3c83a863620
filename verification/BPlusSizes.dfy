/** Occupancy: how full the nodes of a sequential tree are after each restructuring, and
    what that says about a tree of a given height. */
module BPlusSizes {
  import opened Basics
  import opened TreeKeys
  import opened Sequences
  import opened SortedPairs
  import opened BPlusShape
  import opened BPlusRebalance

  // A node at place i of level l of t is, in t', one of these.
  ghost predicate SameSize(t: Tree, t': Tree, n: NodeId) {
    && n < |t.nodes| && n < |t'.nodes| && |t'.nodes[n].keys| == |t.nodes[n].keys|
    && t'.nodes[n].leaf == t.nodes[n].leaf
  }

  // The one node of the top level, the only one that may be less than half full.
  ghost predicate Sole(t: Tree, n: NodeId)
    requires |t.chain| > 0
  {
    t.chain[Top(t)] == [n]
  }

  lemma SizeCarries(t: Tree, t': Tree, capacity: nat, n: NodeId,
                    over: Option<NodeId>, under: Option<NodeId>, over': Option<NodeId>, under': Option<NodeId>)
    requires |t.chain| > 0 && |t'.chain| > 0 && SameSize(t, t', n) && SizeOK(t, capacity, n, over, under)
    requires over != Some(n) && under != Some(n) && (Sole(t', n) <==> Sole(t, n))
    ensures SizeOK(t', capacity, n, over', under')
  {
  }

  lemma Sized(t: Tree, capacity: nat, over: Option<NodeId>, under: Option<NodeId>, l: nat, i: nat)
    requires SizesOK(t, capacity, over, under) && l < |t.chain| && i < |t.chain[l]|
    ensures t.chain[l][i] < |t.nodes| && SizeOK(t, capacity, t.chain[l][i], over, under)
  {
  }

  // ----- inserting -----

  lemma WriteSizes(t: Tree, capacity: nat, j: nat, nd: Node)
    requires SizesOK(t, capacity, None, None) && LeafAt(t, j)
    requires nd.leaf && |nd.keys| == |t.nodes[t.chain[0][j]].keys| + 1
    ensures SizesOK(Rewrite(t, t.chain[0][j], nd), capacity, Some(t.chain[0][j]), None)
  {
    var n := t.chain[0][j];
    var t' := Rewrite(t, n, nd);
    forall l, i | 0 <= l < |t'.chain| && 0 <= i < |t'.chain[l]|
      ensures t'.chain[l][i] < |t'.nodes| && SizeOK(t', capacity, t'.chain[l][i], Some(n), None)
    {
      Sized(t, capacity, None, None, l, i);
      Sized(t, capacity, None, None, 0, j);
    }
  }

  // A node that is not too full after all.
  lemma OverFits(t: Tree, capacity: nat, n: NodeId)
    requires SizesOK(t, capacity, Some(n), None) && n < |t.nodes| && |t.nodes[n].keys| <= capacity
    ensures SizesOK(t, capacity, None, None)
  {
    forall l, i | 0 <= l < |t.chain| && 0 <= i < |t.chain[l]|
      ensures t.chain[l][i] < |t.nodes| && SizeOK(t, capacity, t.chain[l][i], None, None)
    {
      Sized(t, capacity, Some(n), None, l, i);
    }
  }

  lemma UnderFits(t: Tree, capacity: nat, n: NodeId)
    requires SizesOK(t, capacity, None, Some(n)) && n < |t.nodes|
    requires if Sole(t, n) then t.nodes[n].leaf || t.nodes[n].keys != [] else |t.nodes[n].keys| >= capacity / 2
    ensures SizesOK(t, capacity, None, None)
  {
    forall l, i | 0 <= l < |t.chain| && 0 <= i < |t.chain[l]|
      ensures t.chain[l][i] < |t.nodes| && SizeOK(t, capacity, t.chain[l][i], None, None)
    {
      Sized(t, capacity, None, Some(n), l, i);
    }
  }

  // Both halves of a split are at least half full.
  lemma HalvesFull(n: nat, capacity: nat)
    requires n == capacity + 1 && capacity >= 2
    ensures var mid := (n + 1) / 2; capacity / 2 <= mid <= capacity && capacity / 2 <= n - mid <= capacity && mid > 0
    ensures var mid := n / 2; capacity / 2 <= mid <= capacity && capacity / 2 <= n - mid - 1 <= capacity && mid < n
  {
  }

  // A level that was split: the rest of the tree is as full as before.
  lemma SplitSizes(t: Tree, t': Tree, capacity: nat, l: nat, j: nat)
    requires l < |t.chain| && j < |t.chain[l]| && capacity >= 2
    requires SizesOK(t, capacity, Some(t.chain[l][j]), None)
    requires Regrouped(t, t', l, j, 1, [t.chain[l][j], |t.nodes|])
    requires forall n :: 0 <= n < |t.nodes| && n != t.chain[l][j] ==> SameSize(t, t', n)
    requires t.chain[l][j] < |t.nodes| < |t'.nodes|
    requires capacity / 2 <= |t'.nodes[t.chain[l][j]].keys| <= capacity
    requires capacity / 2 <= |t'.nodes[|t.nodes|].keys| <= capacity
    ensures SizesOK(t', capacity, None, None)
  {
    var n, r := t.chain[l][j], |t.nodes|;
    forall l', i | 0 <= l' < |t'.chain| && 0 <= i < |t'.chain[l']|
      ensures t'.chain[l'][i] < |t'.nodes| && SizeOK(t', capacity, t'.chain[l'][i], None, None)
    {
      if l' == l { RegroupedIndex(t, t', l, j, 1, [n, r], i); }
      if t'.chain[l'][i] != n && t'.chain[l'][i] != r {
        var i' := if l' == l && i > j then i - 1 else i;
        assert t.chain[l'][i'] == t'.chain[l'][i];
        Sized(t, capacity, Some(n), None, l', i');
        SplitSole(t, t', l, j, t'.chain[l'][i]);
        SizeCarries(t, t', capacity, t'.chain[l'][i], Some(n), None, None, None);
      }
    }
  }

  lemma SplitSole(t: Tree, t': Tree, l: nat, j: nat, m: NodeId)
    requires l < |t.chain| && j < |t.chain[l]| && Regrouped(t, t', l, j, 1, [t.chain[l][j], |t.nodes|])
    requires m != t.chain[l][j]
    ensures Sole(t', m) <==> Sole(t, m)
  {
    if l == Top(t) {
      assert |t'.chain[l]| == |t.chain[l]| + 1;
      assert t.chain[l][j] in t.chain[l];
    }
  }

  lemma SpliceSizes(t: Tree, capacity: nat, l: nat, j: nat, p: nat, ci: nat)
    requires SpliceReady(t, l, j, p, ci) && SizesOK(t, capacity, None, None)
    ensures SizesOK(SpliceAt(t, l, j, p, ci), capacity, Some(t.chain[l + 1][p]), None)
  {
    hide SizesOK, SizeOK, SpliceAt, LevelOK, UpOK, HintsOK;
    var t' := SpliceAt(t, l, j, p, ci);
    SpliceReads(t, l, j, p, ci);
    forall l', i | 0 <= l' < |t'.chain| && 0 <= i < |t'.chain[l']|
      ensures t'.chain[l'][i] < |t'.nodes| && SizeOK(t', capacity, t'.chain[l'][i], Some(t.chain[l + 1][p]), None)
    {
      SpliceSize(t, capacity, l, j, p, ci, l', i);
    }
    SizesAre(t', capacity, Some(t.chain[l + 1][p]), None);
  }

  lemma SizesAre(t: Tree, capacity: nat, over: Option<NodeId>, under: Option<NodeId>)
    requires |t.chain| > 0 && forall l, i :: 0 <= l < |t.chain| && 0 <= i < |t.chain[l]| ==>
      t.chain[l][i] < |t.nodes| && SizeOK(t, capacity, t.chain[l][i], over, under)
    ensures SizesOK(t, capacity, over, under)
  {
  }

  lemma SpliceSize(t: Tree, capacity: nat, l: nat, j: nat, p: nat, ci: nat, l': nat, i: nat)
    requires SpliceReady(t, l, j, p, ci) && SizesOK(t, capacity, None, None) && l' < |t.chain| && i < |t.chain[l']|
    ensures var t' := SpliceAt(t, l, j, p, ci);
      t.chain[l'][i] < |t'.nodes| && SizeOK(t', capacity, t.chain[l'][i], Some(t.chain[l + 1][p]), None)
  {
    hide SizesOK, LevelOK, UpOK, HintsOK;
    SpliceOutline(t, l, j, p, ci);
    Sized(t, capacity, None, None, l', i);
  }

  lemma GrowRootSizes(t: Tree, capacity: nat)
    requires SizesOK(t, capacity, None, None) && |t.chain| > 0 && |t.chain[Top(t)]| == 2 && capacity >= 1
    requires t.chain[Top(t)][0] < |t.nodes| && t.nodes[t.chain[Top(t)][0]].high.Some?
    requires LevelOK(t, Top(t))
    ensures SizesOK(GrowRoot(t), capacity, None, None)
  {
    var t' := GrowRoot(t);
    var top := |t.nodes|;
    assert MemberOK(t, Top(t), t.chain[Top(t)][0]) && MemberOK(t, Top(t), t.chain[Top(t)][1]);
    assert t'.nodes[top].keys == [t.nodes[t.chain[Top(t)][0]].high.value];
    assert t'.chain[Top(t')] == [top];
    forall l, i | 0 <= l < |t'.chain| && 0 <= i < |t'.chain[l]|
      ensures t'.chain[l][i] < |t'.nodes| && SizeOK(t', capacity, t'.chain[l][i], None, None)
    {
      if l < |t.chain| { Sized(t, capacity, None, None, l, i); }
    }
  }

  // ----- removing -----

  lemma EraseSizes(t: Tree, capacity: nat, j: nat, nd: Node)
    requires SizesOK(t, capacity, None, None) && LeafAt(t, j)
    requires nd.leaf && |nd.keys| == |t.nodes[t.chain[0][j]].keys| - 1
    ensures SizesOK(Rewrite(t, t.chain[0][j], nd), capacity, None, Some(t.chain[0][j]))
  {
    var n := t.chain[0][j];
    var t' := Rewrite(t, n, nd);
    forall l, i | 0 <= l < |t'.chain| && 0 <= i < |t'.chain[l]|
      ensures t'.chain[l][i] < |t'.nodes| && SizeOK(t', capacity, t'.chain[l][i], None, Some(n))
    {
      Sized(t, capacity, None, None, l, i);
      Sized(t, capacity, None, None, 0, j);
    }
  }

  // The tree after siblings were rewritten: every other node is as full as before.
  lemma PairSizes(t: Tree, t': Tree, capacity: nat, l: nat, j: nat, p: nat, ci: nat, ids: seq<NodeId>,
                  x: NodeId, under': Option<NodeId>)
    requires forall m :: 0 <= m < |t.chain| ==> LevelOK(t, m)
    requires PairChange(t, t', l, j, p, ci, ids) && SizesOK(t, capacity, None, Some(x)) && capacity >= 2
    requires x == t.chain[l][j] || x == t.chain[l][j + 1]
    requires forall i :: 0 <= i < |ids| ==> capacity / 2 <= |t'.nodes[ids[i]].keys| <= capacity
    requires var pn := t.chain[l + 1][p];
      || (|t'.nodes[pn].keys| == |t.nodes[pn].keys| && under' == None)
      || (|t'.nodes[pn].keys| + 1 == |t.nodes[pn].keys| && under' == Some(pn))
    ensures SizesOK(t', capacity, None, under')
  {
    forall l', i | 0 <= l' < |t'.chain| && 0 <= i < |t'.chain[l']|
      ensures t'.chain[l'][i] < |t'.nodes| && SizeOK(t', capacity, t'.chain[l'][i], None, under')
    {
      assert l' != l ==> LevelOK(t, l') && MemberOK(t, l', t.chain[l'][i]);
      PairSize(t, t', capacity, l, j, p, ci, ids, x, under', l', i);
    }
  }

  lemma PairSize(t: Tree, t': Tree, capacity: nat, l: nat, j: nat, p: nat, ci: nat, ids: seq<NodeId>,
                 x: NodeId, under': Option<NodeId>, l': nat, i: nat)
    requires PairChange(t, t', l, j, p, ci, ids) && SizesOK(t, capacity, None, Some(x)) && capacity >= 2
    requires x == t.chain[l][j] || x == t.chain[l][j + 1]
    requires forall i :: 0 <= i < |ids| ==> capacity / 2 <= |t'.nodes[ids[i]].keys| <= capacity
    requires var pn := t.chain[l + 1][p];
      || (|t'.nodes[pn].keys| == |t.nodes[pn].keys| && under' == None)
      || (|t'.nodes[pn].keys| + 1 == |t.nodes[pn].keys| && under' == Some(pn))
    requires l' < |t'.chain| && i < |t'.chain[l']| && (l' != l ==> MemberOK(t, l', t'.chain[l'][i]))
    ensures t'.chain[l'][i] < |t'.nodes| && SizeOK(t', capacity, t'.chain[l'][i], None, under')
  {
    hide SizeOK, SizesOK;
    if l' != l {
      PairSizeElsewhere(t, t', capacity, l, j, p, ci, ids, x, under', l', i);
    } else {
      RegroupedIndex(t, t', l, j, 2, ids, i);
      if j <= i < j + |ids| {
        PairSizeRun(t, t', capacity, l, j, p, ci, ids, under', i - j);
      } else {
        PairSizeBeside(t, t', capacity, l, j, p, ci, ids, x, under', if i < j then i else i - |ids| + 2);
      }
    }
  }

  lemma PairSizeRun(t: Tree, t': Tree, capacity: nat, l: nat, j: nat, p: nat, ci: nat, ids: seq<NodeId>,
                    under': Option<NodeId>, i: nat)
    requires PairChange(t, t', l, j, p, ci, ids) && capacity >= 2 && i < |ids|
    requires capacity / 2 <= |t'.nodes[ids[i]].keys| <= capacity
    ensures ids[i] < |t'.nodes| && SizeOK(t', capacity, ids[i], None, under')
  {
    assert MemberOK(t', l, ids[i]);
  }

  lemma PairSizeBeside(t: Tree, t': Tree, capacity: nat, l: nat, j: nat, p: nat, ci: nat, ids: seq<NodeId>,
                       x: NodeId, under': Option<NodeId>, o: nat)
    requires PairChange(t, t', l, j, p, ci, ids) && SizesOK(t, capacity, None, Some(x))
    requires x == t.chain[l][j] || x == t.chain[l][j + 1]
    requires o < |t.chain[l]| && (o < j || o >= j + 2)
    ensures t.chain[l][o] < |t'.nodes| && SizeOK(t', capacity, t.chain[l][o], None, under')
  {
    hide SizeOK, UpOK, KidRow;
    var n := t.chain[l][o];
    Sized(t, capacity, None, Some(x), l, o);
    assert n != t.chain[l][j] && n != t.chain[l][j + 1];
    assert SameNode(t.nodes[n], t'.nodes[n]);
    SizeCarries(t, t', capacity, n, None, Some(x), None, under');
  }

  lemma PairSizeElsewhere(t: Tree, t': Tree, capacity: nat, l: nat, j: nat, p: nat, ci: nat, ids: seq<NodeId>,
                          x: NodeId, under': Option<NodeId>, l': nat, i: nat)
    requires PairChange(t, t', l, j, p, ci, ids) && SizesOK(t, capacity, None, Some(x)) && capacity >= 2
    requires x == t.chain[l][j] || x == t.chain[l][j + 1]
    requires var pn := t.chain[l + 1][p];
      || (|t'.nodes[pn].keys| == |t.nodes[pn].keys| && under' == None)
      || (|t'.nodes[pn].keys| + 1 == |t.nodes[pn].keys| && under' == Some(pn))
    requires l' < |t'.chain| && l' != l && i < |t'.chain[l']| && MemberOK(t, l', t'.chain[l'][i])
    ensures t'.chain[l'][i] < |t'.nodes| && SizeOK(t', capacity, t'.chain[l'][i], None, under')
  {
    hide LevelOK, UpOK, KidRow;
    Sized(t, capacity, None, Some(x), l', i);
  }

  lemma CollapseSizes(t: Tree, capacity: nat, under: Option<NodeId>)
    requires CollapseReady(t) && SizesOK(t, capacity, None, under) && capacity >= 2
    requires under == Some(t.root) && forall m :: 0 <= m < |t.chain| ==> LevelOK(t, m)
    ensures SizesOK(Collapse(t), capacity, None, None)
  {
    var t' := Collapse(t);
    CollapseKid(t);
    var c := t.nodes[t.root].children[0];
    forall l, i | 0 <= l < |t'.chain| && 0 <= i < |t'.chain[l]|
      ensures t'.chain[l][i] < |t'.nodes| && SizeOK(t', capacity, t'.chain[l][i], None, None)
    {
      assert LevelOK(t, l) && MemberOK(t, l, t.chain[l][i]);
      Sized(t, capacity, None, under, l, i);
      assert t.chain[l][i] != t.root;
    }
  }

  // ----- how many entries a tall tree has -----

  function Power(b: nat, e: nat): nat {
    if e == 0 then 1 else b * Power(b, e - 1)
  }

  lemma {:induction false} RowsAtLeast<T>(rows: seq<seq<T>>, n: nat, m: nat)
    requires n <= |rows| && forall i :: 0 <= i < |rows| ==> |rows[i]| >= m
    ensures |Prefix(rows, n)| >= n * m
  {
    if n > 0 { RowsAtLeast(rows, n - 1, m); }
  }

  // A level below one of n half-full nodes has at least (m + 1) n nodes.
  lemma LevelGrows(t: Tree, capacity: nat, l: nat)
    requires ShapeOK(t, NoHole) && SizesOK(t, capacity, None, None) && l + 1 < Top(t)
    ensures |t.chain[l]| >= |t.chain[l + 1]| * (capacity / 2 + 1)
  {
    hide ShapeOK, SizesOK, KidRow;
    var rows := KidRows(t.nodes, t.chain[l + 1]);
    forall i | 0 <= i < |rows| ensures |rows[i]| >= capacity / 2 + 1 { InnerRowSize(t, capacity, l + 1, i); }
    RowsAtLeast(rows, |rows|, capacity / 2 + 1);
    LevelIsRead(t, l);
  }

  lemma LevelIsRead(t: Tree, l: nat)
    requires ShapeOK(t, NoHole) && l + 1 < |t.chain|
    ensures |Flatten(KidRows(t.nodes, t.chain[l + 1]))| == |t.chain[l]|
  {
    hide LevelOK, LeavesOK, HintsOK, Flatten;
    assert UpOK(t, l, NoHole);
  }

  lemma InnerRowSize(t: Tree, capacity: nat, l: nat, i: nat)
    requires ShapeOK(t, NoHole) && SizesOK(t, capacity, None, None) && 0 < l < Top(t) && i < |t.chain[l]|
    ensures t.chain[l][i] < |t.nodes| && |KidRow(t.nodes[t.chain[l][i]])| >= capacity / 2 + 1
  {
    hide UpOK, LeavesOK, HintsOK;
    assert LevelOK(t, l) && LevelOK(t, Top(t)) && MemberOK(t, l, t.chain[l][i]);
    Sized(t, capacity, None, None, l, i);
    NotSole(t, l, i);
  }

  lemma NotSole(t: Tree, l: nat, i: nat)
    requires |t.chain| > 0 && l < Top(t) && i < |t.chain[l]| && LevelOK(t, l) && LevelOK(t, Top(t))
    ensures !Sole(t, t.chain[l][i])
  {
    assert MemberOK(t, l, t.chain[l][i]) && MemberOK(t, Top(t), t.chain[Top(t)][0]);
  }

  lemma {:induction false} LevelSize(t: Tree, capacity: nat, l: nat)
    requires ShapeOK(t, NoHole) && SizesOK(t, capacity, None, None) && l < Top(t)
    ensures |t.chain[l]| >= 2 * Power(capacity / 2 + 1, Top(t) - 1 - l)
    decreases Top(t) - l
  {
    if l + 1 == Top(t) {
      assert LevelOK(t, Top(t)) && UpOK(t, l, NoHole);
      var ids := t.chain[Top(t)];
      assert MemberOK(t, Top(t), ids[0]) && ids == [t.root];
      Sized(t, capacity, None, None, Top(t), 0);
      assert KidRows(t.nodes, ids) == [KidRow(t.nodes[t.root])];
      FlattenOne(KidRow(t.nodes[t.root]));
    } else {
      LevelSize(t, capacity, l + 1);
      LevelGrows(t, capacity, l);
      PowerStep(|t.chain[l]|, |t.chain[l + 1]|, capacity / 2 + 1, Top(t) - 1 - l);
    }
  }

  lemma PowerStep(a: nat, b: nat, k: nat, e: nat)
    requires e > 0 && a >= b * k && b >= 2 * Power(k, e - 1)
    ensures a >= 2 * Power(k, e)
  {
    assert b * k >= 2 * Power(k, e - 1) * k;
  }

  // A tree of height h >= 2 with node capacity c holds at least 2 m (m + 1)^(h - 2)
  // entries, where m = c / 2: the height is logarithmic in the size.
  lemma HeightBound(t: Tree, capacity: nat)
    requires ShapeOK(t, NoHole) && SizesOK(t, capacity, None, None) && |t.chain| >= 2
    ensures |Entries(t)| >= 2 * Power(capacity / 2 + 1, |t.chain| - 2) * (capacity / 2)
  {
    hide ShapeOK, SizesOK, EntryRow, Power;
    LevelSize(t, capacity, 0);
    var rows := EntryRows(t.nodes, t.chain[0]);
    forall i | 0 <= i < |rows| ensures |rows[i]| >= capacity / 2 { LeafRowSize(t, capacity, i); }
    RowsAtLeast(rows, |rows|, capacity / 2);
    Times(|rows|, 2 * Power(capacity / 2 + 1, |t.chain| - 2), capacity / 2);
  }

  lemma LeafRowSize(t: Tree, capacity: nat, i: nat)
    requires ShapeOK(t, NoHole) && SizesOK(t, capacity, None, None) && 0 < Top(t) && i < |t.chain[0]|
    ensures t.chain[0][i] < |t.nodes| && |EntryRow(t.nodes[t.chain[0][i]])| >= capacity / 2
  {
    hide UpOK, LeavesOK, HintsOK;
    assert LevelOK(t, 0) && LevelOK(t, Top(t)) && MemberOK(t, 0, t.chain[0][i]);
    Sized(t, capacity, None, None, 0, i);
    NotSole(t, 0, i);
  }

  lemma Times(a: nat, b: nat, k: nat)
    requires a >= b
    ensures a * k >= b * k
  {
  }
}
