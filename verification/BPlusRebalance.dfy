/** Borrowing and merging: what `remove` does to two adjacent siblings and their parent,
    and why the tree keeps its shape and its contents. */
module BPlusRebalance {
  import opened Basics
  import opened TreeKeys
  import opened Sequences
  import opened SortedPairs
  import opened BPlusShape

  // ----- two adjacent siblings and their parent -----

  // chain[l][j] and chain[l][j + 1] are children ci and ci + 1 of chain[l + 1][p].
  ghost predicate Siblings(t: Tree, l: nat, j: nat, p: nat, ci: nat) {
    && l + 1 < |t.chain| && LevelOK(t, l) && LevelOK(t, l + 1) && UpOK(t, l, NoHole)
    && j + 1 < |t.chain[l]| && p < |t.chain[l + 1]|
    && MemberOK(t, l, t.chain[l][j]) && MemberOK(t, l, t.chain[l][j + 1]) && MemberOK(t, l + 1, t.chain[l + 1][p])
    && ci + 1 < |t.nodes[t.chain[l + 1][p]].children|
    && t.nodes[t.chain[l + 1][p]].children[ci] == t.chain[l][j]
  }

  lemma SiblingSlots(t: Tree, l: nat, j: nat, p: nat, ci: nat)
    requires Siblings(t, l, j, p, ci)
    ensures Offset(KidRows(t.nodes, t.chain[l + 1]), p) + ci == j
    ensures t.nodes[t.chain[l + 1][p]].children[ci + 1] == t.chain[l][j + 1]
    ensures t.nodes[t.chain[l][j]].high == Some(t.nodes[t.chain[l + 1][p]].keys[ci])
    ensures KidRow(t.nodes[t.chain[l + 1][p]])[ci + 1] == (t.chain[l][j + 1], t.nodes[t.chain[l][j + 1]].high)
  {
    ChildMember(t, l, NoHole, p, ci);
    ChildMember(t, l, NoHole, p, ci + 1);
    var k := Offset(KidRows(t.nodes, t.chain[l + 1]), p) + ci;
    ExpectedMembers(t, l, NoHole, k);
    assert Expected(t, l, NoHole)[j].0 == t.chain[l][j];
  }

  ghost predicate Within(a: seq<NodeId>, b: seq<NodeId>) { forall c :: c in a ==> c in b }

  // t' differs from t in the run of siblings (now `ids`), in the parent's row, and in
  // the hints of children that changed hands.
  ghost predicate PairChange(t: Tree, t': Tree, l: nat, j: nat, p: nat, ci: nat, ids: seq<NodeId>) {
    && Siblings(t, l, j, p, ci) && Regrouped(t, t', l, j, 2, ids)
    && |t'.nodes| == |t.nodes| && t'.level == t.level && t'.root == t.root
    && (forall m :: 0 <= m < |t.nodes| && m != t.chain[l][j] && m != t.chain[l][j + 1] && m != t.chain[l + 1][p] ==>
         SameNode(t.nodes[m], t'.nodes[m]))
    && (forall m :: 0 <= m < |t.nodes| && t'.nodes[m].hint != t.nodes[m].hint ==>
         t.level[m] + 1 == l && (t.nodes[m].hint == Some(t.chain[l][j]) || t.nodes[m].hint == Some(t.chain[l][j + 1])))
    && var pn := t.chain[l + 1][p];
    && t'.nodes[pn] == t.nodes[pn].(keys := t'.nodes[pn].keys, children := t'.nodes[pn].children)
    && NodeOK(t'.nodes[pn]) && Within(t'.nodes[pn].children, t.nodes[pn].children)
    && KidRow(t'.nodes[pn]) == Cut(KidRow(t.nodes[pn]), ci, 2, Covers(t'.nodes, ids))
  }

  lemma PairLevels(t: Tree, t': Tree, l: nat, j: nat, p: nat, ci: nat, ids: seq<NodeId>, l': nat)
    requires PairChange(t, t', l, j, p, ci, ids) && l' < |t.chain| && LevelOK(t, l')
    ensures LevelOK(t', l')
    ensures l' != l ==> Covers(t'.nodes, t'.chain[l']) == Covers(t.nodes, t.chain[l'])
    ensures l' != l && l' != l + 1 ==> SameLevel(t, t', l')
  {
    if l' == l {
      RegroupedLevel(t, t', l, j, 2, ids);
    } else {
      forall i | 0 <= i < |t.chain[l']|
        ensures t.chain[l'][i] < |t.nodes| && t.chain[l'][i] != t.chain[l][j] && t.chain[l'][i] != t.chain[l][j + 1]
        ensures l' != l + 1 ==> t.chain[l'][i] != t.chain[l + 1][p]
        ensures NodeOK(t.nodes[t.chain[l'][i]])
      {
        assert MemberOK(t, l', t.chain[l'][i]);
      }
      if l' == l + 1 { SameOutlineReads(t, t', l'); } else { SameLevelReads(t, t', l'); }
    }
  }

  // The parent's row now names the run.
  lemma PairParent(t: Tree, t': Tree, l: nat, j: nat, p: nat, ci: nat, ids: seq<NodeId>)
    requires PairChange(t, t', l, j, p, ci, ids)
    ensures UpOK(t', l, NoHole)
  {
    hide Flatten, KidRows, KidRow, Covers;
    PairParentRows(t, t', l, j, p, ci, ids);
    SiblingSlots(t, l, j, p, ci);
    FlattenCut(KidRows(t.nodes, t.chain[l + 1]), p, ci, 2, Covers(t'.nodes, ids));
    RegroupedCovers(t, t', l, j, 2, ids);
  }

  lemma PairParentRows(t: Tree, t': Tree, l: nat, j: nat, p: nat, ci: nat, ids: seq<NodeId>)
    requires PairChange(t, t', l, j, p, ci, ids)
    ensures var rows := KidRows(t.nodes, t.chain[l + 1]);
      && p < |rows| && ci + 2 <= |rows[p]| && t'.chain[l + 1] == t.chain[l + 1]
      && KidRows(t'.nodes, t.chain[l + 1]) == rows[p := Cut(rows[p], ci, 2, Covers(t'.nodes, ids))]
  {
    var ps := t.chain[l + 1];
    forall i | 0 <= i < |ps|
      ensures ps[i] < |t.nodes| && ps[i] != t.chain[l][j] && ps[i] != t.chain[l][j + 1]
    {
      assert MemberOK(t, l + 1, ps[i]);
    }
    OneRow(t.nodes, t'.nodes, ps, p);
  }

  lemma PairHintsRun(t: Tree, t': Tree, l: nat, j: nat, p: nat, ci: nat, ids: seq<NodeId>)
    requires PairChange(t, t', l, j, p, ci, ids) && HintsOK(t, l)
    requires forall i :: 0 <= i < |ids| ==> HintOK(t'.nodes, ids[i])
    ensures HintsOK(t', l)
  {
    forall i, c | 0 <= i < |t.chain[l]| && !(j <= i < j + 2) && c in t.nodes[t.chain[l][i]].children
      ensures c < |t.nodes| && t'.nodes[c].hint == t.nodes[c].hint
    {
      assert HintOK(t.nodes, t.chain[l][i]);
      assert t.chain[l][i] != t.chain[l][j] && t.chain[l][i] != t.chain[l][j + 1];
    }
    RegroupedHints(t, t', l, j, 2, ids);
  }

  // The parents' hints: its children kept theirs, and it kept only children.
  lemma PairHintsParents(t: Tree, t': Tree, l: nat, j: nat, p: nat, ci: nat, ids: seq<NodeId>)
    requires PairChange(t, t', l, j, p, ci, ids) && HintsOK(t, l + 1)
    ensures HintsOK(t', l + 1)
  {
    var ps := t.chain[l + 1];
    forall i | 0 <= i < |ps| ensures HintOK(t'.nodes, ps[i]) {
      var q := ps[i];
      assert HintOK(t.nodes, q) && MemberOK(t, l + 1, q);
      forall ci' | 0 <= ci' < |t'.nodes[q].children|
        ensures t'.nodes[q].children[ci'] < |t.nodes| && t'.nodes[t'.nodes[q].children[ci']].hint == Some(q)
      {
        var c := t'.nodes[q].children[ci'];
        assert c in t'.nodes[q].children && c in t.nodes[q].children;
        ChildIn(t, l, i, c);
      }
    }
  }

  lemma ChildIn(t: Tree, l: nat, i: nat, c: NodeId)
    requires l + 1 < |t.chain| && LevelOK(t, l) && LevelOK(t, l + 1) && UpOK(t, l, NoHole)
    requires i < |t.chain[l + 1]| && t.chain[l + 1][i] < |t.nodes| && c in t.nodes[t.chain[l + 1][i]].children
    requires HintOK(t.nodes, t.chain[l + 1][i])
    ensures MemberOK(t, l, c) && t.nodes[c].hint == Some(t.chain[l + 1][i])
  {
    var k :| 0 <= k < |t.nodes[t.chain[l + 1][i]].children| && t.nodes[t.chain[l + 1][i]].children[k] == c;
    ChildMember(t, l, NoHole, i, k);
  }

  // What the run must hold for the contents and the level below to read as before.
  ghost predicate RunHolds(t: Tree, t': Tree, l: nat, j: nat, ids: seq<NodeId>)
    requires l < |t.chain| && j + 2 <= |t.chain[l]|
  {
    && (l == 0 ==>
         && Flatten(EntryRows(t'.nodes, ids)) == Flatten(EntryRows(t.nodes, t.chain[0])[j..j + 2])
         && RunWithin(t'.nodes, LowOf(t.nodes, t.chain[0], j), ids))
    && (l > 0 ==>
         && Flatten(KidRows(t'.nodes, ids)) == Flatten(KidRows(t.nodes, t.chain[l])[j..j + 2])
         && forall i :: 0 <= i < |ids| ==> HintOK(t'.nodes, ids[i]))
  }

  lemma PairHintsElsewhere(t: Tree, t': Tree, l: nat, j: nat, p: nat, ci: nat, ids: seq<NodeId>, l': nat)
    requires PairChange(t, t', l, j, p, ci, ids) && 0 < l' < |t.chain| && l' != l && l' != l + 1
    requires LevelOK(t, l') && HintsOK(t, l') && LevelOK(t, l' - 1) && UpOK(t, l' - 1, NoHole)
    ensures HintsOK(t', l')
  {
    PairLevels(t, t', l, j, p, ci, ids, l');
    HintsElsewhere(t, t', l', NoHole, if l > 0 then l - 1 else |t.chain|);
  }

  lemma PairHints(t: Tree, t': Tree, l: nat, j: nat, p: nat, ci: nat, ids: seq<NodeId>, l': nat)
    requires PairChange(t, t', l, j, p, ci, ids) && RunHolds(t, t', l, j, ids)
    requires l' < |t.chain| && LevelOK(t', l') && LevelOK(t, l') && HintsOK(t, l')
    requires l' > 0 ==> LevelOK(t, l' - 1) && UpOK(t, l' - 1, NoHole)
    ensures HintsOK(t', l')
  {
    hide LevelOK, HintsOK, UpOK, Flatten, KidRows;
    if l' == 0 {
      LeafHints(t');
    } else if l' == l {
      PairHintsRun(t, t', l, j, p, ci, ids);
    } else if l' == l + 1 {
      PairHintsParents(t, t', l, j, p, ci, ids);
    } else {
      PairHintsElsewhere(t, t', l, j, p, ci, ids, l');
    }
  }

  lemma PairUpsElsewhere(t: Tree, t': Tree, l: nat, j: nat, p: nat, ci: nat, ids: seq<NodeId>, l': nat)
    requires PairChange(t, t', l, j, p, ci, ids) && l' + 1 < |t.chain| && l' != l && l' + 1 != l
    requires LevelOK(t, l') && LevelOK(t, l' + 1) && UpOK(t, l', NoHole)
    ensures UpOK(t', l', NoHole)
  {
    hide LevelOK, Flatten, KidRows, Covers, Regrouped;
    PairLevels(t, t', l, j, p, ci, ids, l');
    PairLevels(t, t', l, j, p, ci, ids, l' + 1);
    SameLevelReads(t, t', l' + 1);
  }

  lemma PairDown(t: Tree, t': Tree, l: nat, j: nat, p: nat, ci: nat, ids: seq<NodeId>)
    requires PairChange(t, t', l, j, p, ci, ids) && RunHolds(t, t', l, j, ids)
    requires l > 0 && LevelOK(t, l - 1) && UpOK(t, l - 1, NoHole)
    ensures UpOK(t', l - 1, NoHole)
  {
    hide LevelOK, UpOK, Regrouped, KidRows, Flatten, SameLevel;
    PairLevels(t, t', l, j, p, ci, ids, l - 1);
    RegroupedDown(t, t', l, j, 2, ids, NoHole, NoHole);
  }

  lemma PairUps(t: Tree, t': Tree, l: nat, j: nat, p: nat, ci: nat, ids: seq<NodeId>, l': nat)
    requires PairChange(t, t', l, j, p, ci, ids) && RunHolds(t, t', l, j, ids)
    requires l' + 1 < |t.chain| && LevelOK(t, l') && LevelOK(t, l' + 1) && UpOK(t, l', NoHole)
    ensures UpOK(t', l', NoHole)
  {
    hide LevelOK, UpOK, PairChange, RunHolds;
    if l' == l {
      PairParent(t, t', l, j, p, ci, ids);
    } else if l' + 1 == l {
      PairDown(t, t', l, j, p, ci, ids);
    } else {
      PairUpsElsewhere(t, t', l, j, p, ci, ids, l');
    }
  }

  lemma PairLeavesRun(t: Tree, t': Tree, j: nat, p: nat, ci: nat, ids: seq<NodeId>)
    requires PairChange(t, t', 0, j, p, ci, ids) && RunHolds(t, t', 0, j, ids) && LevelOK(t, 0) && LeavesOK(t)
    ensures LevelOK(t', 0) && LeavesOK(t') && Entries(t') == Entries(t)
  {
    hide LevelOK, LeavesOK, UpOK, MemberOK, Regrouped, RunWithin, Flatten, EntryRows, KidRows, Entries, Covers;
    RegroupedLeaves(t, t', j, 2, ids);
    RegroupedEntries(t, t', j, 2, ids);
  }

  lemma PairLeavesSame(t: Tree, t': Tree, l: nat, j: nat, p: nat, ci: nat, ids: seq<NodeId>)
    requires PairChange(t, t', l, j, p, ci, ids) && l > 0 && LevelOK(t, 0) && LeavesOK(t)
    ensures LevelOK(t', 0) && LeavesOK(t') && Entries(t') == Entries(t)
  {
    hide LevelOK, LeavesOK, UpOK, MemberOK, Regrouped, SameLevel, Flatten, EntryRows, KidRows, Entries, Covers;
    PairLevels(t, t', l, j, p, ci, ids, 0);
    SameLeaves(t, t');
  }

  lemma PairLeaves(t: Tree, t': Tree, l: nat, j: nat, p: nat, ci: nat, ids: seq<NodeId>)
    requires PairChange(t, t', l, j, p, ci, ids) && RunHolds(t, t', l, j, ids) && LevelOK(t, 0) && LeavesOK(t)
    ensures LevelOK(t', 0) && LeavesOK(t') && Entries(t') == Entries(t)
  {
    hide PairChange, RunHolds, LevelOK, LeavesOK, Entries;
    if l == 0 { PairLeavesRun(t, t', j, p, ci, ids); } else { PairLeavesSame(t, t', l, j, p, ci, ids); }
  }

  lemma PairTop(t: Tree, t': Tree, l: nat, j: nat, p: nat, ci: nat, ids: seq<NodeId>)
    requires ShapeOK(t, NoHole) && PairChange(t, t', l, j, p, ci, ids)
    ensures |t'.chain| == |t.chain| && TopOK(t', NoHole)
  {
    assert LevelOK(t, Top(t)) && MemberOK(t, Top(t), t.chain[Top(t)][0]);
  }

  lemma PairShape(t: Tree, t': Tree, l: nat, j: nat, p: nat, ci: nat, ids: seq<NodeId>)
    requires ShapeOK(t, NoHole) && PairChange(t, t', l, j, p, ci, ids) && RunHolds(t, t', l, j, ids)
    ensures ShapeOK(t', NoHole) && Entries(t') == Entries(t)
  {
    hide LevelOK, HintsOK, UpOK, LeavesOK, Entries, RunHolds, TopOK;
    PairTop(t, t', l, j, p, ci, ids);
    assert LevelOK(t, 0);
    PairLeaves(t, t', l, j, p, ci, ids);
    forall l' | 0 <= l' < |t.chain| ensures LevelOK(t', l') && HintsOK(t', l') {
      assert LevelOK(t, l') && HintsOK(t, l');
      assert l' > 0 ==> LevelOK(t, l' - 1) && UpOK(t, l' - 1, NoHole);
      PairLevels(t, t', l, j, p, ci, ids, l');
      PairHints(t, t', l, j, p, ci, ids, l');
    }
    forall l' | 0 <= l' < |t.chain| - 1 ensures UpOK(t', l', NoHole) {
      assert LevelOK(t, l') && LevelOK(t, l' + 1) && UpOK(t, l', NoHole);
      PairUps(t, t', l, j, p, ci, ids, l');
    }
  }

  // ----- what the siblings and the parent become -----

  // `borrow_from_right_`: u takes the first entry, or the first child, of r.
  function TakeFirst(u: Node, r: Node, sep: Key): Node
    requires NodeOK(u) && NodeOK(r) && u.leaf == r.leaf && |r.keys| > 0
  {
    if u.leaf then u.(keys := u.keys + [r.keys[0]], values := u.values + [r.values[0]], high := Some(r.keys[0]))
    else u.(keys := u.keys + [sep], children := u.children + [r.children[0]], high := Some(r.keys[0]))
  }

  function DropFirst(r: Node): Node
    requires NodeOK(r) && |r.keys| > 0
  {
    if r.leaf then r.(keys := r.keys[1..], values := r.values[1..])
    else r.(keys := r.keys[1..], children := r.children[1..])
  }

  // `borrow_from_left_`: u takes the last entry, or the last child, of left.
  function DropLast(left: Node): Node
    requires NodeOK(left) && |left.keys| > (if left.leaf then 1 else 0)
  {
    var n := |left.keys| - 1;
    if left.leaf then left.(keys := left.keys[..n], values := left.values[..n], high := Some(left.keys[n - 1]))
    else left.(keys := left.keys[..n], children := left.children[..n + 1], high := Some(left.keys[n]))
  }

  function TakeLast(u: Node, left: Node, sep: Key): Node
    requires NodeOK(u) && NodeOK(left) && u.leaf == left.leaf && |left.keys| > 0
  {
    var n := |left.keys| - 1;
    if u.leaf then u.(keys := [left.keys[n]] + u.keys, values := [left.values[n]] + u.values)
    else u.(keys := [sep] + u.keys, children := [left.children[n + 1]] + u.children)
  }

  // `merge_with_right_`: left absorbs right, its link and its bound.
  function Absorb(left: Node, right: Node, sep: Key): Node
    requires NodeOK(left) && NodeOK(right) && left.leaf == right.leaf
  {
    var m := left.(right := right.right, high := right.high);
    if left.leaf then m.(keys := left.keys + right.keys, values := left.values + right.values)
    else m.(keys := left.keys + [sep] + right.keys, children := left.children + right.children)
  }

  function WithSeparator(p: Node, ci: nat, sep: Key): Node
    requires ci < |p.keys|
  {
    p.(keys := p.keys[ci := sep])
  }

  function WithoutChild(p: Node, ci: nat): Node
    requires ci < |p.keys| && ci + 1 < |p.children|
  {
    p.(keys := RemoveAt(p.keys, ci), children := RemoveAt(p.children, ci + 1))
  }

  ghost predicate PairIn(nodes: seq<Node>, p: NodeId, ci: nat) {
    && p < |nodes| && NodeOK(nodes[p]) && !nodes[p].leaf && ci + 1 < |nodes[p].children|
    && nodes[p].children[ci] < |nodes| && nodes[p].children[ci + 1] < |nodes|
    && NodeOK(nodes[nodes[p].children[ci]]) && NodeOK(nodes[nodes[p].children[ci + 1]])
    && nodes[nodes[p].children[ci]].leaf == nodes[nodes[p].children[ci + 1]].leaf
  }

  function BorrowRight(nodes: seq<Node>, p: NodeId, ci: nat): seq<Node>
    requires PairIn(nodes, p, ci) && |nodes[nodes[p].children[ci + 1]].keys| > 0
  {
    var u, r := nodes[p].children[ci], nodes[p].children[ci + 1];
    var ns := nodes[u := TakeFirst(nodes[u], nodes[r], nodes[p].keys[ci])][r := DropFirst(nodes[r])]
                   [p := WithSeparator(nodes[p], ci, nodes[r].keys[0])];
    Rehomed(ns, if nodes[u].leaf then [] else [nodes[r].children[0]], u)
  }

  function BorrowLeft(nodes: seq<Node>, p: NodeId, ci: nat): seq<Node>
    requires PairIn(nodes, p, ci)
    requires |nodes[nodes[p].children[ci]].keys| > (if nodes[nodes[p].children[ci]].leaf then 1 else 0)
  {
    var left, u := nodes[p].children[ci], nodes[p].children[ci + 1];
    var ns := nodes[left := DropLast(nodes[left])][u := TakeLast(nodes[u], nodes[left], nodes[p].keys[ci])]
                   [p := WithSeparator(nodes[p], ci, DropLast(nodes[left]).high.value)];
    Rehomed(ns, if nodes[u].leaf then [] else [nodes[left].children[|nodes[left].keys|]], u)
  }

  function Merge(nodes: seq<Node>, p: NodeId, ci: nat): seq<Node>
    requires PairIn(nodes, p, ci)
  {
    var left, right := nodes[p].children[ci], nodes[p].children[ci + 1];
    var ns := nodes[left := Absorb(nodes[left], nodes[right], nodes[p].keys[ci])][p := WithoutChild(nodes[p], ci)];
    Rehomed(ns, if nodes[left].leaf then [] else nodes[right].children, left)
  }

  // ----- the rows before and after -----

  lemma BorrowRightRows(u: Node, r: Node, sep: Key)
    requires NodeOK(u) && NodeOK(r) && u.leaf == r.leaf && |r.keys| > 0
    ensures u.leaf ==> EntryRow(TakeFirst(u, r, sep)) + EntryRow(DropFirst(r)) == EntryRow(u) + EntryRow(r)
    ensures !u.leaf && u.high == Some(sep) ==>
      KidRow(TakeFirst(u, r, sep)) + KidRow(DropFirst(r)) == KidRow(u) + KidRow(r)
  {
  }

  lemma BorrowLeftRows(left: Node, u: Node, sep: Key)
    requires NodeOK(u) && NodeOK(left) && u.leaf == left.leaf && |left.keys| > (if left.leaf then 1 else 0)
    ensures u.leaf ==> EntryRow(DropLast(left)) + EntryRow(TakeLast(u, left, sep)) == EntryRow(left) + EntryRow(u)
    ensures !u.leaf && left.high == Some(sep) ==>
      KidRow(DropLast(left)) + KidRow(TakeLast(u, left, sep)) == KidRow(left) + KidRow(u)
  {
  }

  lemma MergeRows(left: Node, right: Node, sep: Key)
    requires NodeOK(left) && NodeOK(right) && left.leaf == right.leaf
    ensures left.leaf ==> EntryRow(Absorb(left, right, sep)) == EntryRow(left) + EntryRow(right)
    ensures !left.leaf && left.high == Some(sep) ==>
      KidRow(Absorb(left, right, sep)) == KidRow(left) + KidRow(right)
  {
  }

  lemma SeparatorRow(p: Node, ci: nat, sep: Key)
    requires NodeOK(p) && !p.leaf && ci < |p.keys|
    ensures KidRow(WithSeparator(p, ci, sep)) ==
      Cut(KidRow(p), ci, 2, [(p.children[ci], Some(sep)), KidRow(p)[ci + 1]])
  {
  }

  lemma WithoutChildRow(p: Node, ci: nat)
    requires NodeOK(p) && !p.leaf && ci + 1 < |p.children|
    ensures KidRow(WithoutChild(p, ci)) == Cut(KidRow(p), ci, 2, [(p.children[ci], KidRow(p)[ci + 1].1)])
  {
  }

  // ----- the change as a whole -----

  // The siblings and the parent rewritten as a, b and c, and the children that moved.
  function PairWrite(nodes: seq<Node>, left: NodeId, right: NodeId, p: NodeId,
                     a: Node, b: Node, c: Node, moved: seq<NodeId>, h: NodeId): seq<Node>
    requires left < |nodes| && right < |nodes| && p < |nodes|
  {
    Rehomed(nodes[left := a][right := b][p := c], moved, h)
  }

  function PairTree(t: Tree, l: nat, j: nat, p: nat, a: Node, b: Node, c: Node,
                    moved: seq<NodeId>, h: NodeId, ids: seq<NodeId>): Tree
    requires l + 1 < |t.chain| && j + 1 < |t.chain[l]| && p < |t.chain[l + 1]|
    requires t.chain[l][j] < |t.nodes| && t.chain[l][j + 1] < |t.nodes| && t.chain[l + 1][p] < |t.nodes|
  {
    t.(nodes := PairWrite(t.nodes, t.chain[l][j], t.chain[l][j + 1], t.chain[l + 1][p], a, b, c, moved, h),
       chain := t.chain[l := Cut(t.chain[l], j, 2, ids)])
  }

  // The children that change hands are children of one of the siblings.
  ghost predicate MovedOK(t: Tree, l: nat, j: nat, moved: seq<NodeId>)
    requires l < |t.chain| && j + 1 < |t.chain[l]|
  {
    && |t.level| == |t.nodes|
    && forall m :: m in moved ==>
      && m < |t.nodes| && t.level[m] + 1 == l
      && (t.nodes[m].hint == Some(t.chain[l][j]) || t.nodes[m].hint == Some(t.chain[l][j + 1]))
  }

  lemma ChildrenMove(t: Tree, l: nat, j: nat, moved: seq<NodeId>, i: nat)
    requires 0 < l < |t.chain| && LevelOK(t, l) && LevelOK(t, l - 1) && UpOK(t, l - 1, NoHole) && HintsOK(t, l)
    requires j + 1 < |t.chain[l]| && (i == j || i == j + 1) && t.chain[l][i] < |t.nodes|
    requires Within(moved, t.nodes[t.chain[l][i]].children)
    ensures MovedOK(t, l, j, moved)
  {
    assert HintOK(t.nodes, t.chain[l][i]) && MemberOK(t, l, t.chain[l][i]);
    forall m | m in moved
      ensures m < |t.nodes| && t.level[m] + 1 == l && t.nodes[m].hint == Some(t.chain[l][i])
    {
      ChildIn(t, l - 1, i, m);
    }
  }

  lemma PairWriteNodes(t: Tree, l: nat, j: nat, p: nat, ci: nat,
                       a: Node, b: Node, c: Node, moved: seq<NodeId>, h: NodeId, ids: seq<NodeId>)
    requires Siblings(t, l, j, p, ci) && MovedOK(t, l, j, moved)
    ensures var nodes' := PairTree(t, l, j, p, a, b, c, moved, h, ids).nodes;
      && |nodes'| == |t.nodes|
      && nodes'[t.chain[l][j]] == a && nodes'[t.chain[l][j + 1]] == b && nodes'[t.chain[l + 1][p]] == c
      && (forall m :: 0 <= m < |t.nodes| && m != t.chain[l][j] && m != t.chain[l][j + 1] && m != t.chain[l + 1][p] ==>
           SameNode(t.nodes[m], nodes'[m]))
      && (forall m :: 0 <= m < |t.nodes| && nodes'[m].hint != t.nodes[m].hint ==>
           m == t.chain[l][j] || m == t.chain[l][j + 1] || m == t.chain[l + 1][p] || m in moved)
  {
  }

  // The level once the pair is rewritten: the run keeps its ends.
  lemma PairRegroups(t: Tree, l: nat, j: nat, p: nat, ci: nat,
                     a: Node, b: Node, c: Node, moved: seq<NodeId>, h: NodeId, ids: seq<NodeId>)
    requires Siblings(t, l, j, p, ci) && MovedOK(t, l, j, moved)
    requires ids == [t.chain[l][j], t.chain[l][j + 1]] || ids == [t.chain[l][j]]
    requires NodeOK(a) && a.leaf == t.nodes[t.chain[l][j]].leaf && NodeOK(b) && b.leaf == a.leaf
    requires |ids| == 2 ==>
      && a.right == t.nodes[t.chain[l][j]].right && a.high.Some?
      && b.right == t.nodes[t.chain[l][j + 1]].right && b.high == t.nodes[t.chain[l][j + 1]].high
    requires |ids| == 1 ==>
      a.right == t.nodes[t.chain[l][j + 1]].right && a.high == t.nodes[t.chain[l][j + 1]].high
    ensures Regrouped(t, PairTree(t, l, j, p, a, b, c, moved, h, ids), l, j, 2, ids)
  {
    var t' := PairTree(t, l, j, p, a, b, c, moved, h, ids);
    var old_ := t.chain[l];
    PairWriteNodes(t, l, j, p, ci, a, b, c, moved, h, ids);
    forall i | 0 <= i < |old_| ensures old_[i] < |t.nodes| && old_[i] != t.chain[l + 1][p] {
      assert MemberOK(t, l, old_[i]);
    }
    assert ThreadOK(t.nodes, old_, j);
    assert MemberOK(t', l, old_[j]) && MemberOK(t', l, old_[j + 1]);
    RunDistinct(old_, j, ids);
  }

  lemma RunDistinct(s: seq<NodeId>, j: nat, ids: seq<NodeId>)
    requires Distinct(s) && j + 1 < |s| && (ids == [s[j], s[j + 1]] || ids == [s[j]])
    ensures Distinct(Cut(s, j, 2, ids))
  {
    if |ids| == 2 { assert Cut(s, j, 2, ids) == s; }
  }

  lemma PairIsChange(t: Tree, l: nat, j: nat, p: nat, ci: nat,
                     a: Node, b: Node, c: Node, moved: seq<NodeId>, h: NodeId, ids: seq<NodeId>)
    requires Siblings(t, l, j, p, ci) && MovedOK(t, l, j, moved)
    requires Regrouped(t, PairTree(t, l, j, p, a, b, c, moved, h, ids), l, j, 2, ids)
    requires a.hint == t.nodes[t.chain[l][j]].hint && b.hint == t.nodes[t.chain[l][j + 1]].hint
    requires var pd := t.nodes[t.chain[l + 1][p]];
      && c == pd.(keys := c.keys, children := c.children) && NodeOK(c) && Within(c.children, pd.children)
      && KidRow(c) == Cut(KidRow(pd), ci, 2,
        if |ids| == 1 then [(ids[0], a.high)] else [(ids[0], a.high), (ids[1], b.high)])
    requires ids == [t.chain[l][j], t.chain[l][j + 1]] || ids == [t.chain[l][j]]
    ensures PairChange(t, PairTree(t, l, j, p, a, b, c, moved, h, ids), l, j, p, ci, ids)
  {
    PairWriteNodes(t, l, j, p, ci, a, b, c, moved, h, ids);
    var t' := PairTree(t, l, j, p, a, b, c, moved, h, ids);
    assert Covers(t'.nodes, ids) == if |ids| == 1 then [(ids[0], a.high)] else [(ids[0], a.high), (ids[1], b.high)];
  }

  // ----- borrowing and merging keep the shape -----

  ghost predicate RebalanceReady(t: Tree, l: nat, j: nat, p: nat, ci: nat) {
    && ShapeOK(t, NoHole) && Siblings(t, l, j, p, ci)
    && PairIn(t.nodes, t.chain[l + 1][p], ci)
    && t.nodes[t.chain[l + 1][p]].children[ci + 1] == t.chain[l][j + 1]
    && (t.nodes[t.chain[l][j]].leaf <==> l == 0) && (t.nodes[t.chain[l][j + 1]].leaf <==> l == 0)
    && (l == 0 ==> LevelOK(t, 0) && LeafOK(t.nodes, t.chain[0], j) && LeafOK(t.nodes, t.chain[0], j + 1))
    && (l > 0 ==>
         && LevelOK(t, l - 1) && UpOK(t, l - 1, NoHole) && HintsOK(t, l)
         && HintOK(t.nodes, t.chain[l][j]) && HintOK(t.nodes, t.chain[l][j + 1])
         && Distinct(t.nodes[t.chain[l][j]].children) && Distinct(t.nodes[t.chain[l][j + 1]].children))
  }

  lemma SiblingsReady(t: Tree, l: nat, j: nat, p: nat, ci: nat)
    requires ShapeOK(t, NoHole) && Siblings(t, l, j, p, ci)
    ensures RebalanceReady(t, l, j, p, ci)
  {
    hide ShapeOK, LevelOK, UpOK, HintsOK, HintOK, LeafOK, KidRow;
    SiblingSlots(t, l, j, p, ci);
    SiblingsAround(t, l, j);
  }

  lemma SiblingsAround(t: Tree, l: nat, j: nat)
    requires ShapeOK(t, NoHole) && l < |t.chain| && j + 1 < |t.chain[l]|
    requires MemberOK(t, l, t.chain[l][j]) && MemberOK(t, l, t.chain[l][j + 1])
    ensures l == 0 ==> LevelOK(t, 0) && LeafOK(t.nodes, t.chain[0], j) && LeafOK(t.nodes, t.chain[0], j + 1)
    ensures l > 0 ==>
      && LevelOK(t, l - 1) && UpOK(t, l - 1, NoHole) && HintsOK(t, l)
      && HintOK(t.nodes, t.chain[l][j]) && HintOK(t.nodes, t.chain[l][j + 1])
      && Distinct(t.nodes[t.chain[l][j]].children) && Distinct(t.nodes[t.chain[l][j + 1]].children)
  {
    hide UpOK, LeafOK, HintOK, Distinct;
    assert LevelOK(t, l);
    if l > 0 {
      assert LevelOK(t, l - 1) && UpOK(t, l - 1, NoHole) && HintsOK(t, l);
      ChildrenDistinct(t, l - 1, NoHole, j);
      ChildrenDistinct(t, l - 1, NoHole, j + 1);
    }
  }

  lemma RowsOfOne(nodes: seq<Node>, n: NodeId)
    requires n < |nodes|
    ensures Flatten(EntryRows(nodes, [n])) == EntryRow(nodes[n])
    ensures Flatten(KidRows(nodes, [n])) == KidRow(nodes[n])
  {
    hide EntryRow, KidRow, Flatten;
    assert EntryRows(nodes, [n]) == [EntryRow(nodes[n])];
    assert KidRows(nodes, [n]) == [KidRow(nodes[n])];
    FlattenOne(EntryRow(nodes[n]));
    FlattenOne(KidRow(nodes[n]));
  }

  lemma RowsOfTwo(nodes: seq<Node>, n: NodeId, m: NodeId)
    requires n < |nodes| && m < |nodes|
    ensures Flatten(EntryRows(nodes, [n, m])) == EntryRow(nodes[n]) + EntryRow(nodes[m])
    ensures Flatten(KidRows(nodes, [n, m])) == KidRow(nodes[n]) + KidRow(nodes[m])
  {
    hide EntryRow, KidRow, Flatten;
    assert EntryRows(nodes, [n, m]) == [EntryRow(nodes[n]), EntryRow(nodes[m])];
    assert KidRows(nodes, [n, m]) == [KidRow(nodes[n]), KidRow(nodes[m])];
    FlattenTwo(EntryRow(nodes[n]), EntryRow(nodes[m]));
    FlattenTwo(KidRow(nodes[n]), KidRow(nodes[m]));
  }

  lemma OldRows(t: Tree, l: nat, j: nat)
    requires l < |t.chain| && j + 1 < |t.chain[l]|
    requires t.chain[l][j] < |t.nodes| && t.chain[l][j + 1] < |t.nodes|
    ensures Flatten(EntryRows(t.nodes, t.chain[l])[j..j + 2]) ==
      EntryRow(t.nodes[t.chain[l][j]]) + EntryRow(t.nodes[t.chain[l][j + 1]])
    ensures Flatten(KidRows(t.nodes, t.chain[l])[j..j + 2]) ==
      KidRow(t.nodes[t.chain[l][j]]) + KidRow(t.nodes[t.chain[l][j + 1]])
  {
    hide EntryRow, KidRow, Flatten;
    RowsOfTwo(t.nodes, t.chain[l][j], t.chain[l][j + 1]);
    assert EntryRows(t.nodes, t.chain[l])[j..j + 2] == EntryRows(t.nodes, [t.chain[l][j], t.chain[l][j + 1]]);
    assert KidRows(t.nodes, t.chain[l])[j..j + 2] == KidRows(t.nodes, [t.chain[l][j], t.chain[l][j + 1]]);
  }

  // The rewritten pair reads the same when its rows and hints do.
  lemma PairWriteShape(t: Tree, l: nat, j: nat, p: nat, ci: nat,
                       a: Node, b: Node, c: Node, moved: seq<NodeId>, h: NodeId, ids: seq<NodeId>)
    requires ShapeOK(t, NoHole) && Siblings(t, l, j, p, ci) && MovedOK(t, l, j, moved)
    requires ids == [t.chain[l][j], t.chain[l][j + 1]] || ids == [t.chain[l][j]]
    requires PairChange(t, PairTree(t, l, j, p, a, b, c, moved, h, ids), l, j, p, ci, ids)
    requires var old_a, old_b := t.nodes[t.chain[l][j]], t.nodes[t.chain[l][j + 1]];
      && (l == 0 ==> EntryRow(a) + (if |ids| == 2 then EntryRow(b) else []) == EntryRow(old_a) + EntryRow(old_b))
      && (l > 0 ==> KidRow(a) + (if |ids| == 2 then KidRow(b) else []) == KidRow(old_a) + KidRow(old_b))
    requires l == 0 ==>
      && KeysWithin(LowOf(t.nodes, t.chain[0], j), a.keys, a.high)
      && (|ids| == 2 ==> KeysWithin(a.high, b.keys, b.high))
    requires var t' := PairTree(t, l, j, p, a, b, c, moved, h, ids);
      l > 0 ==> forall i :: 0 <= i < |ids| ==> HintOK(t'.nodes, ids[i])
    ensures var t' := PairTree(t, l, j, p, a, b, c, moved, h, ids);
      ShapeOK(t', NoHole) && Entries(t') == Entries(t)
  {
    hide ShapeOK, EntryRow, KidRow, KeysWithin, Flatten, Entries;
    var t' := PairTree(t, l, j, p, a, b, c, moved, h, ids);
    PairWriteNodes(t, l, j, p, ci, a, b, c, moved, h, ids);
    RowsOfOne(t'.nodes, t.chain[l][j]);
    RowsOfTwo(t'.nodes, t.chain[l][j], t.chain[l][j + 1]);
    OldRows(t, l, j);
    assert RunHolds(t, t', l, j, ids);
    PairShape(t, t', l, j, p, ci, ids);
  }

  function BorrowRightTree(t: Tree, p: NodeId, ci: nat): Tree
    requires PairIn(t.nodes, p, ci) && |t.nodes[t.nodes[p].children[ci + 1]].keys| > 0
  {
    t.(nodes := BorrowRight(t.nodes, p, ci))
  }

  function BorrowLeftTree(t: Tree, p: NodeId, ci: nat): Tree
    requires PairIn(t.nodes, p, ci)
    requires |t.nodes[t.nodes[p].children[ci]].keys| > (if t.nodes[t.nodes[p].children[ci]].leaf then 1 else 0)
  {
    t.(nodes := BorrowLeft(t.nodes, p, ci))
  }

  function MergeTree(t: Tree, l: nat, j: nat, p: NodeId, ci: nat): Tree
    requires PairIn(t.nodes, p, ci) && l < |t.chain| && j + 1 < |t.chain[l]|
  {
    t.(nodes := Merge(t.nodes, p, ci), chain := t.chain[l := Cut(t.chain[l], j, 2, [t.chain[l][j]])])
  }

  // Hints of a rewritten sibling: its own children, plus those that moved to it.
  lemma RunHint(t: Tree, l: nat, j: nat, p: nat, ci: nat, a: Node, b: Node, c: Node,
                moved: seq<NodeId>, h: NodeId, ids: seq<NodeId>, i: nat)
    requires RebalanceReady(t, l, j, p, ci) && l > 0 && MovedOK(t, l, j, moved) && (i == j || i == j + 1)
    requires KidsOfRun(t.nodes[t.chain[l][i]], if i == j then a else b, moved, t.chain[l][i] == h)
    ensures HintOK(PairTree(t, l, j, p, a, b, c, moved, h, ids).nodes, t.chain[l][i])
  {
    hide ShapeOK, LevelOK, UpOK, HintsOK, LeafOK, Distinct;
    var n := t.chain[l][i];
    var t' := PairTree(t, l, j, p, a, b, c, moved, h, ids);
    PairWriteNodes(t, l, j, p, ci, a, b, c, moved, h, ids);
    var nd := if i == j then a else b;
    forall k | 0 <= k < |nd.children|
      ensures nd.children[k] < |t.nodes| && t'.nodes[nd.children[k]].hint == Some(n)
    {
      RunKid(t, l, j, p, ci, moved, i, nd, h, k);
    }
  }

  // The children of a rewritten sibling: old ones that stayed, or ones that moved to it.
  ghost predicate KidsOfRun(old_: Node, nd: Node, moved: seq<NodeId>, home: bool) {
    forall k :: 0 <= k < |nd.children| ==>
      (nd.children[k] in old_.children && nd.children[k] !in moved) || (nd.children[k] in moved && home)
  }

  lemma RunKid(t: Tree, l: nat, j: nat, p: nat, ci: nat, moved: seq<NodeId>, i: nat, nd: Node, h: NodeId, k: nat)
    requires RebalanceReady(t, l, j, p, ci) && l > 0 && MovedOK(t, l, j, moved) && (i == j || i == j + 1)
    requires KidsOfRun(t.nodes[t.chain[l][i]], nd, moved, t.chain[l][i] == h) && k < |nd.children|
    ensures var m := nd.children[k];
      && m < |t.nodes| && m != t.chain[l][j] && m != t.chain[l][j + 1] && m != t.chain[l + 1][p]
      && (if m in moved then t.chain[l][i] == h else t.nodes[m].hint == Some(t.chain[l][i]))
  {
    hide ShapeOK, LeafOK, Distinct;
    if nd.children[k] !in moved { ChildIn(t, l - 1, i, nd.children[k]); }
  }

  lemma SameChain(chain: seq<seq<NodeId>>, l: nat, j: nat)
    requires l < |chain| && j + 1 < |chain[l]|
    ensures chain[l := Cut(chain[l], j, 2, [chain[l][j], chain[l][j + 1]])] == chain
  {
    assert Cut(chain[l], j, 2, [chain[l][j], chain[l][j + 1]]) == chain[l];
  }

  lemma BorrowRightIsWrite(t: Tree, l: nat, j: nat, p: nat, ci: nat)
    requires RebalanceReady(t, l, j, p, ci) && |t.nodes[t.chain[l][j + 1]].keys| > 0
    ensures var pn, u, r := t.chain[l + 1][p], t.nodes[t.chain[l][j]], t.nodes[t.chain[l][j + 1]];
      var sep := t.nodes[pn].keys[ci];
      BorrowRightTree(t, pn, ci) ==
        PairTree(t, l, j, p, TakeFirst(u, r, sep), DropFirst(r), WithSeparator(t.nodes[pn], ci, r.keys[0]),
                 if l == 0 then [] else [r.children[0]], t.chain[l][j], [t.chain[l][j], t.chain[l][j + 1]])
  {
    hide ShapeOK, LevelOK, UpOK, HintsOK, HintOK, LeafOK, Rehomed, TakeFirst, DropFirst, WithSeparator;
    SameChain(t.chain, l, j);
  }

  lemma BorrowRightShape(t: Tree, l: nat, j: nat, p: nat, ci: nat)
    requires RebalanceReady(t, l, j, p, ci) && |t.nodes[t.chain[l][j + 1]].keys| > 0
    ensures var t' := BorrowRightTree(t, t.chain[l + 1][p], ci);
      && ShapeOK(t', NoHole) && Entries(t') == Entries(t)
      && PairChange(t, t', l, j, p, ci, [t.chain[l][j], t.chain[l][j + 1]])
  {
    hide ShapeOK, LevelOK, UpOK, HintsOK, HintOK, Entries, KidRow, EntryRow, KeysWithin, Regrouped, PairChange,
      PairTree;
    var ids := [t.chain[l][j], t.chain[l][j + 1]];
    var pn, u, r := t.nodes[t.chain[l + 1][p]], t.nodes[t.chain[l][j]], t.nodes[t.chain[l][j + 1]];
    var a, b, c := TakeFirst(u, r, pn.keys[ci]), DropFirst(r), WithSeparator(pn, ci, r.keys[0]);
    var moved := if l == 0 then [] else [r.children[0]];
    SiblingSlots(t, l, j, p, ci);
    if l > 0 { ChildrenMove(t, l, j, moved, j + 1); }
    PairRegroups(t, l, j, p, ci, a, b, c, moved, t.chain[l][j], ids);
    SeparatorRow(pn, ci, r.keys[0]);
    PairIsChange(t, l, j, p, ci, a, b, c, moved, t.chain[l][j], ids);
    BorrowRightRows(u, r, pn.keys[ci]);
    if l == 0 { BorrowRightWithin(t, j, pn.keys[ci]); } else { BorrowRightHints(t, l, j, p, ci); }
    PairWriteShape(t, l, j, p, ci, a, b, c, moved, t.chain[l][j], ids);
    BorrowRightIsWrite(t, l, j, p, ci);
  }

  lemma BorrowRightWithin(t: Tree, j: nat, sep: Key)
    requires LevelOK0(t, j) && |t.nodes[t.chain[0][j + 1]].keys| > 0
    ensures var u, r := t.nodes[t.chain[0][j]], t.nodes[t.chain[0][j + 1]];
      var a, b := TakeFirst(u, r, sep), DropFirst(r);
      KeysWithin(LowOf(t.nodes, t.chain[0], j), a.keys, a.high) && KeysWithin(a.high, b.keys, b.high)
  {
  }

  // Two adjacent leaves and their bounds.
  ghost predicate LevelOK0(t: Tree, j: nat) {
    && |t.chain| > 0 && j + 1 < |t.chain[0]|
    && t.chain[0][j] < |t.nodes| && t.chain[0][j + 1] < |t.nodes|
    && NodeOK(t.nodes[t.chain[0][j]]) && t.nodes[t.chain[0][j]].leaf
    && NodeOK(t.nodes[t.chain[0][j + 1]]) && t.nodes[t.chain[0][j + 1]].leaf
    && t.nodes[t.chain[0][j]].high.Some?
    && LeafOK(t.nodes, t.chain[0], j) && LeafOK(t.nodes, t.chain[0], j + 1)
  }

  // No node is a child of both siblings.
  lemma ChildrenApart(t: Tree, l: nat, j: nat, p: nat, ci: nat)
    requires RebalanceReady(t, l, j, p, ci) && l > 0
    ensures forall c :: c in t.nodes[t.chain[l][j]].children ==> c !in t.nodes[t.chain[l][j + 1]].children
  {
    hide ShapeOK, UpOK, HintsOK, LeafOK;
    var a, b := t.chain[l][j], t.chain[l][j + 1];
    assert a != b;
    forall c | c in t.nodes[a].children ensures c !in t.nodes[b].children {
      assert c < |t.nodes| && t.nodes[c].hint == Some(a);
    }
  }

  lemma BorrowRightKids(u: Node, r: Node, sep: Key)
    requires NodeOK(u) && NodeOK(r) && !u.leaf && !r.leaf && |r.keys| > 0
    requires Distinct(r.children) && r.children[0] !in u.children
    ensures KidsOfRun(u, TakeFirst(u, r, sep), [r.children[0]], true)
    ensures KidsOfRun(r, DropFirst(r), [r.children[0]], false)
  {
  }

  lemma BorrowRightHints(t: Tree, l: nat, j: nat, p: nat, ci: nat)
    requires RebalanceReady(t, l, j, p, ci) && l > 0 && |t.nodes[t.chain[l][j + 1]].keys| > 0
    ensures var ids := [t.chain[l][j], t.chain[l][j + 1]];
      var pn, u, r := t.nodes[t.chain[l + 1][p]], t.nodes[t.chain[l][j]], t.nodes[t.chain[l][j + 1]];
      var t' := PairTree(t, l, j, p, TakeFirst(u, r, pn.keys[ci]), DropFirst(r), WithSeparator(pn, ci, r.keys[0]),
                         [r.children[0]], t.chain[l][j], ids);
      HintOK(t'.nodes, ids[0]) && HintOK(t'.nodes, ids[1])
  {
    hide ShapeOK, LevelOK, UpOK, HintsOK, HintOK, LeafOK, KidsOfRun, MovedOK, PairTree, TakeFirst, DropFirst,
      WithSeparator;
    var ids := [t.chain[l][j], t.chain[l][j + 1]];
    var pn, u, r := t.nodes[t.chain[l + 1][p]], t.nodes[t.chain[l][j]], t.nodes[t.chain[l][j + 1]];
    var a, b, c := TakeFirst(u, r, pn.keys[ci]), DropFirst(r), WithSeparator(pn, ci, r.keys[0]);
    ChildrenMove(t, l, j, [r.children[0]], j + 1);
    ChildrenApart(t, l, j, p, ci);
    SiblingsDiffer(t, l, j);
    BorrowRightKids(u, r, pn.keys[ci]);
    RunHint(t, l, j, p, ci, a, b, c, [r.children[0]], t.chain[l][j], ids, j);
    RunHint(t, l, j, p, ci, a, b, c, [r.children[0]], t.chain[l][j], ids, j + 1);
  }

  lemma SiblingsDiffer(t: Tree, l: nat, j: nat)
    requires l < |t.chain| && LevelOK(t, l) && j + 1 < |t.chain[l]|
    ensures t.chain[l][j] != t.chain[l][j + 1]
  {
  }

  // ----- borrowing from the left -----

  lemma BorrowLeftIsWrite(t: Tree, l: nat, j: nat, p: nat, ci: nat)
    requires RebalanceReady(t, l, j, p, ci)
    requires |t.nodes[t.chain[l][j]].keys| > (if l == 0 then 1 else 0)
    ensures var pn, left, u := t.chain[l + 1][p], t.nodes[t.chain[l][j]], t.nodes[t.chain[l][j + 1]];
      var sep := t.nodes[pn].keys[ci];
      BorrowLeftTree(t, pn, ci) ==
        PairTree(t, l, j, p, DropLast(left), TakeLast(u, left, sep),
                 WithSeparator(t.nodes[pn], ci, DropLast(left).high.value),
                 if l == 0 then [] else [left.children[|left.keys|]], t.chain[l][j + 1],
                 [t.chain[l][j], t.chain[l][j + 1]])
  {
    hide ShapeOK, LevelOK, UpOK, HintsOK, HintOK, LeafOK, Rehomed, TakeLast, WithSeparator;
    SameChain(t.chain, l, j);
  }

  lemma BorrowLeftWithin(t: Tree, j: nat, sep: Key)
    requires LevelOK0(t, j) && |t.nodes[t.chain[0][j]].keys| > 1
    ensures var left, u := t.nodes[t.chain[0][j]], t.nodes[t.chain[0][j + 1]];
      var a, b := DropLast(left), TakeLast(u, left, sep);
      KeysWithin(LowOf(t.nodes, t.chain[0], j), a.keys, a.high) && KeysWithin(a.high, b.keys, b.high)
  {
  }

  lemma BorrowLeftKids(left: Node, u: Node, sep: Key)
    requires NodeOK(u) && NodeOK(left) && !u.leaf && !left.leaf && |left.keys| > 0
    requires Distinct(left.children) && left.children[|left.keys|] !in u.children
    ensures KidsOfRun(u, TakeLast(u, left, sep), [left.children[|left.keys|]], true)
    ensures KidsOfRun(left, DropLast(left), [left.children[|left.keys|]], false)
  {
  }

  lemma BorrowLeftHints(t: Tree, l: nat, j: nat, p: nat, ci: nat)
    requires RebalanceReady(t, l, j, p, ci) && l > 0 && |t.nodes[t.chain[l][j]].keys| > 0
    ensures var ids := [t.chain[l][j], t.chain[l][j + 1]];
      var pn, left, u := t.nodes[t.chain[l + 1][p]], t.nodes[t.chain[l][j]], t.nodes[t.chain[l][j + 1]];
      var t' := PairTree(t, l, j, p, DropLast(left), TakeLast(u, left, pn.keys[ci]),
                         WithSeparator(pn, ci, DropLast(left).high.value),
                         [left.children[|left.keys|]], t.chain[l][j + 1], ids);
      HintOK(t'.nodes, ids[0]) && HintOK(t'.nodes, ids[1])
  {
    hide ShapeOK, LevelOK, UpOK, HintsOK, HintOK, LeafOK, KidsOfRun, MovedOK, PairTree, TakeLast, WithSeparator;
    var ids := [t.chain[l][j], t.chain[l][j + 1]];
    var pn, left, u := t.nodes[t.chain[l + 1][p]], t.nodes[t.chain[l][j]], t.nodes[t.chain[l][j + 1]];
    var a, b, c := DropLast(left), TakeLast(u, left, pn.keys[ci]), WithSeparator(pn, ci, DropLast(left).high.value);
    var moved := [left.children[|left.keys|]];
    ChildrenMove(t, l, j, moved, j);
    ChildrenApart(t, l, j, p, ci);
    SiblingsDiffer(t, l, j);
    assert left.children[|left.keys|] in left.children;
    BorrowLeftKids(left, u, pn.keys[ci]);
    RunHint(t, l, j, p, ci, a, b, c, moved, t.chain[l][j + 1], ids, j);
    RunHint(t, l, j, p, ci, a, b, c, moved, t.chain[l][j + 1], ids, j + 1);
  }

  lemma BorrowLeftShape(t: Tree, l: nat, j: nat, p: nat, ci: nat)
    requires RebalanceReady(t, l, j, p, ci)
    requires |t.nodes[t.chain[l][j]].keys| > (if l == 0 then 1 else 0)
    ensures var t' := BorrowLeftTree(t, t.chain[l + 1][p], ci);
      && ShapeOK(t', NoHole) && Entries(t') == Entries(t)
      && PairChange(t, t', l, j, p, ci, [t.chain[l][j], t.chain[l][j + 1]])
  {
    hide ShapeOK, LevelOK, UpOK, HintsOK, HintOK, Entries, KidRow, EntryRow, KeysWithin, Regrouped, PairChange,
      PairTree;
    var ids := [t.chain[l][j], t.chain[l][j + 1]];
    var pn, left, u := t.nodes[t.chain[l + 1][p]], t.nodes[t.chain[l][j]], t.nodes[t.chain[l][j + 1]];
    var a, b, c := DropLast(left), TakeLast(u, left, pn.keys[ci]), WithSeparator(pn, ci, DropLast(left).high.value);
    var moved := if l == 0 then [] else [left.children[|left.keys|]];
    SiblingSlots(t, l, j, p, ci);
    if l > 0 { ChildrenMove(t, l, j, moved, j); }
    PairRegroups(t, l, j, p, ci, a, b, c, moved, t.chain[l][j + 1], ids);
    SeparatorRow(pn, ci, DropLast(left).high.value);
    PairIsChange(t, l, j, p, ci, a, b, c, moved, t.chain[l][j + 1], ids);
    BorrowLeftRows(left, u, pn.keys[ci]);
    if l == 0 { BorrowLeftWithin(t, j, pn.keys[ci]); } else { BorrowLeftHints(t, l, j, p, ci); }
    PairWriteShape(t, l, j, p, ci, a, b, c, moved, t.chain[l][j + 1], ids);
    BorrowLeftIsWrite(t, l, j, p, ci);
  }

  // ----- merging -----

  lemma MergeIsWrite(t: Tree, l: nat, j: nat, p: nat, ci: nat)
    requires RebalanceReady(t, l, j, p, ci)
    ensures var pn, left, right := t.chain[l + 1][p], t.nodes[t.chain[l][j]], t.nodes[t.chain[l][j + 1]];
      MergeTree(t, l, j, pn, ci) ==
        PairTree(t, l, j, p, Absorb(left, right, t.nodes[pn].keys[ci]), right, WithoutChild(t.nodes[pn], ci),
                 if l == 0 then [] else right.children, t.chain[l][j], [t.chain[l][j]])
  {
    hide ShapeOK, LevelOK, UpOK, HintsOK, HintOK, LeafOK, Rehomed, Absorb, WithoutChild;
    SiblingsDiffer(t, l, j);
    var pn, left, right := t.chain[l + 1][p], t.chain[l][j], t.chain[l][j + 1];
    var ns := t.nodes[left := Absorb(t.nodes[left], t.nodes[right], t.nodes[pn].keys[ci])];
    assert ns[right := t.nodes[right]] == ns;
  }

  lemma MergeWithin(t: Tree, j: nat, sep: Key)
    requires LevelOK0(t, j)
    ensures var m := Absorb(t.nodes[t.chain[0][j]], t.nodes[t.chain[0][j + 1]], sep);
      KeysWithin(LowOf(t.nodes, t.chain[0], j), m.keys, m.high)
  {
  }

  lemma MergeKids(left: Node, right: Node, sep: Key)
    requires NodeOK(left) && NodeOK(right) && !left.leaf && !right.leaf
    requires forall c :: c in left.children ==> c !in right.children
    ensures KidsOfRun(left, Absorb(left, right, sep), right.children, true)
  {
  }

  lemma MergeHints(t: Tree, l: nat, j: nat, p: nat, ci: nat)
    requires RebalanceReady(t, l, j, p, ci) && l > 0
    ensures var pn, left, right := t.nodes[t.chain[l + 1][p]], t.nodes[t.chain[l][j]], t.nodes[t.chain[l][j + 1]];
      HintOK(PairTree(t, l, j, p, Absorb(left, right, pn.keys[ci]), right, WithoutChild(pn, ci),
                      right.children, t.chain[l][j], [t.chain[l][j]]).nodes, t.chain[l][j])
  {
    hide ShapeOK, LevelOK, UpOK, HintsOK, HintOK, LeafOK, KidsOfRun, MovedOK, PairTree, Absorb, WithoutChild;
    var pn, left, right := t.nodes[t.chain[l + 1][p]], t.nodes[t.chain[l][j]], t.nodes[t.chain[l][j + 1]];
    ChildrenMove(t, l, j, right.children, j + 1);
    ChildrenApart(t, l, j, p, ci);
    MergeKids(left, right, pn.keys[ci]);
    RunHint(t, l, j, p, ci, Absorb(left, right, pn.keys[ci]), right, WithoutChild(pn, ci),
            right.children, t.chain[l][j], [t.chain[l][j]], j);
  }

  lemma MergeShape(t: Tree, l: nat, j: nat, p: nat, ci: nat)
    requires RebalanceReady(t, l, j, p, ci)
    ensures var t' := MergeTree(t, l, j, t.chain[l + 1][p], ci);
      && ShapeOK(t', NoHole) && Entries(t') == Entries(t)
      && PairChange(t, t', l, j, p, ci, [t.chain[l][j]])
  {
    hide ShapeOK, LevelOK, UpOK, HintsOK, HintOK, Entries, KidRow, EntryRow, KeysWithin, Regrouped, PairChange,
      PairTree;
    var ids := [t.chain[l][j]];
    var pn, left, right := t.nodes[t.chain[l + 1][p]], t.nodes[t.chain[l][j]], t.nodes[t.chain[l][j + 1]];
    var a, c := Absorb(left, right, pn.keys[ci]), WithoutChild(pn, ci);
    var moved := if l == 0 then [] else right.children;
    SiblingSlots(t, l, j, p, ci);
    if l > 0 { ChildrenMove(t, l, j, moved, j + 1); }
    PairRegroups(t, l, j, p, ci, a, right, c, moved, t.chain[l][j], ids);
    WithoutChildRow(pn, ci);
    PairIsChange(t, l, j, p, ci, a, right, c, moved, t.chain[l][j], ids);
    MergeRows(left, right, pn.keys[ci]);
    if l == 0 { MergeWithin(t, j, pn.keys[ci]); } else { MergeHints(t, l, j, p, ci); }
    PairWriteShape(t, l, j, p, ci, a, right, c, moved, t.chain[l][j], ids);
    MergeIsWrite(t, l, j, p, ci);
  }

  // ----- the root collapses onto its only child -----

  function Collapse(t: Tree): Tree
    requires t.root < |t.nodes| && |t.nodes[t.root].children| > 0 && t.nodes[t.root].children[0] < |t.nodes|
    requires |t.chain| > 0
  {
    var c := t.nodes[t.root].children[0];
    t.(nodes := t.nodes[c := t.nodes[c].(high := None, right := None, hint := None)],
       root := c, chain := t.chain[..Top(t)])
  }

  ghost predicate CollapseReady(t: Tree) {
    && |t.chain| > 1 && LevelOK(t, Top(t)) && LevelOK(t, Top(t) - 1) && t.chain[Top(t)] == [t.root]
    && MemberOK(t, Top(t), t.root) && t.nodes[t.root].keys == [] && UpOK(t, Top(t) - 1, NoHole)
    && |t.nodes[t.root].children| == 1 && t.nodes[t.root].children[0] < |t.nodes|
  }

  lemma CollapseKid(t: Tree)
    requires CollapseReady(t)
    ensures t.chain[Top(t) - 1] == t.nodes[t.root].children
    ensures var nd := t.nodes[t.nodes[t.root].children[0]]; nd.right.None? && nd.high.None?
  {
    assert KidRows(t.nodes, [t.root]) == [KidRow(t.nodes[t.root])];
    FlattenOne(KidRow(t.nodes[t.root]));
    var ids := t.chain[Top(t) - 1];
    assert |Covers(t.nodes, ids)| == 1 && Covers(t.nodes, ids)[0].0 == t.nodes[t.root].children[0];
    assert ThreadOK(t.nodes, ids, 0);
  }

  lemma CollapseLevels(t: Tree, l: nat)
    requires CollapseReady(t) && l < Top(t) && LevelOK(t, l)
    ensures SameLevel(t, Collapse(t), l)
  {
    CollapseKid(t);
    forall i | 0 <= i < |t.chain[l]| ensures t.chain[l][i] < |t.nodes| { assert MemberOK(t, l, t.chain[l][i]); }
  }

  lemma CollapseHints(t: Tree, l: nat)
    requires CollapseReady(t) && l < Top(t) && LevelOK(t, l) && HintsOK(t, l)
    requires l > 0 ==> LevelOK(t, l - 1) && UpOK(t, l - 1, NoHole)
    ensures HintsOK(Collapse(t), l)
  {
    var t' := Collapse(t);
    CollapseKid(t);
    CollapseLevels(t, l);
    if l == 0 {
      SameLevelReads(t, t', 0);
      LeafHints(t');
    } else {
      assert MemberOK(t, Top(t) - 1, t.chain[Top(t) - 1][0]);
      HintsElsewhere(t, t', l, NoHole, Top(t) - 1);
    }
  }

  lemma CollapseUps(t: Tree, l: nat)
    requires CollapseReady(t) && l + 1 < Top(t) && LevelOK(t, l) && LevelOK(t, l + 1) && UpOK(t, l, NoHole)
    ensures UpOK(Collapse(t), l, NoHole)
  {
    CollapseLevels(t, l);
    CollapseLevels(t, l + 1);
    SameUp(t, Collapse(t), l, NoHole, NoHole);
  }

  lemma CollapseTop(t: Tree)
    requires CollapseReady(t)
    ensures var t' := Collapse(t); |t'.chain| == Top(t) && TopOK(t', NoHole) && HoleOK(t', NoHole)
  {
    CollapseKid(t);
  }

  lemma CollapseReads(t: Tree)
    requires CollapseReady(t) && LevelOK(t, 0) && LeavesOK(t)
    ensures var t' := Collapse(t); LevelOK(t', 0) && LeavesOK(t') && Entries(t') == Entries(t)
  {
    hide LeavesOK, Entries, LevelOK, UpOK;
    CollapseLevels(t, 0);
    SameLeaves(t, Collapse(t));
  }

  lemma CollapseIsReady(t: Tree)
    requires ShapeOK(t, NoHole) && |t.chain| > 1 && t.nodes[t.root].keys == []
    ensures CollapseReady(t)
  {
    assert LevelOK(t, Top(t)) && LevelOK(t, Top(t) - 1) && UpOK(t, Top(t) - 1, NoHole);
    assert HintsOK(t, Top(t)) && MemberOK(t, Top(t), t.chain[Top(t)][0]) && HintOK(t.nodes, t.chain[Top(t)][0]);
    assert t.chain[Top(t)] == [t.root];
  }

  lemma CollapseShape(t: Tree)
    requires ShapeOK(t, NoHole) && CollapseReady(t)
    ensures ShapeOK(Collapse(t), NoHole) && Entries(Collapse(t)) == Entries(t)
  {
    hide LevelOK, HintsOK, UpOK, LeavesOK, Entries, TopOK, HoleOK;
    var t' := Collapse(t);
    assert LevelOK(t, 0);
    CollapseTop(t);
    CollapseReads(t);
    forall l | 0 <= l < Top(t) ensures LevelOK(t', l) && HintsOK(t', l) {
      assert LevelOK(t, l) && HintsOK(t, l);
      assert l > 0 ==> LevelOK(t, l - 1) && UpOK(t, l - 1, NoHole);
      CollapseLevels(t, l);
      SameLevelReads(t, t', l);
      CollapseHints(t, l);
    }
    forall l | 0 <= l < Top(t) - 1 ensures UpOK(t', l, NoHole) {
      assert LevelOK(t, l) && LevelOK(t, l + 1) && UpOK(t, l, NoHole);
      CollapseUps(t, l);
    }
  }
}
