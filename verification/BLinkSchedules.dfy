/** Two schedules of two threads, step by step from the empty tree with node capacity 1. In
    the first, two splits of one leaf reach the parent in reverse and its separators go out
    of order. In the second, the list that `split_internal_` walks changes under the walk. */
module BLinkSchedules {
  import opened Basics
  import opened TreeKeys
  import opened BLinkTree
  import opened BLinkThreads
  import opened BLinkLists
  import opened BLinkOrder

  // ----- runs of two threads -----

  ghost predicate RunTo(states: seq<State>, tree: Tree, pc0: PC, pc1: PC) {
    && Run(states) && states[0].capacity == 1 && |states[0].pcs| == 2
    && states[|states| - 1] == State(1, tree, [pc0, pc1])
  }

  // From state i on, thread 1 is in the loop over the children of pr.right.
  ghost predicate Looping(states: seq<State>, i: nat, pr: Promotion) {
    i < |states| && forall k :: i <= k < |states| ==> InLoop(states[k], 1, pr)
  }

  lemma Extend(states: seq<State>, t: nat, call: Call)
    requires Run(states) && Ready(states[|states| - 1], t)
    ensures Run(states + [Step(states[|states| - 1], t, call)])
  {
    var n, s := |states| - 1, Step(states[|states| - 1], t, call);
    var more := states + [s];
    forall i | 0 <= i < |more| - 1 ensures Follows(more[i], more[i + 1]) {
      if i < n { assert Follows(states[i], states[i + 1]); }
    }
  }

  // A step of thread 0, or of thread 1, by what it does to the tree and its own place.
  lemma Step0(states: seq<State>, tree: Tree, pc0: PC, pc1: PC, call: Call, tree': Tree, pc0': PC)
    returns (more: seq<State>)
    requires RunTo(states, tree, pc0, pc1) && !pc0.Fault?
    requires Waits(pc0).Some? ==> Waits(pc0).value !in Holds(pc0) && Waits(pc0).value !in Holds(pc1)
    requires StepThread(1, tree, pc0, call) == (tree', pc0')
    ensures RunTo(more, tree', pc0', pc1) && states <= more && |more| == |states| + 1
    ensures forall i: nat, pr :: Looping(states, i, pr) ==> Looping(more, i, pr)
  {
    var s := states[|states| - 1];
    assert s.pcs[0] == pc0 && s.pcs[1] == pc1;
    Extend(states, 0, call);
    more := states + [Step(s, 0, call)];
    assert s.pcs[0 := pc0'] == [pc0', pc1];
    forall i: nat, pr | Looping(states, i, pr) ensures Looping(more, i, pr) {
      assert InLoop(states[|states| - 1], 1, pr);
    }
  }

  lemma Step1(states: seq<State>, tree: Tree, pc0: PC, pc1: PC, call: Call, tree': Tree, pc1': PC)
    returns (more: seq<State>)
    requires RunTo(states, tree, pc0, pc1) && !pc1.Fault?
    requires Waits(pc1).Some? ==> Waits(pc1).value !in Holds(pc0) && Waits(pc1).value !in Holds(pc1)
    requires StepThread(1, tree, pc1, call) == (tree', pc1')
    ensures RunTo(more, tree', pc0, pc1') && states <= more && |more| == |states| + 1
  {
    var s := states[|states| - 1];
    assert s.pcs[0] == pc0 && s.pcs[1] == pc1;
    Extend(states, 1, call);
    more := states + [Step(s, 1, call)];
    assert s.pcs[1 := pc1'] == [pc0, pc1'];
  }

  // ----- trees -----

  function Leaf(keys: seq<Key>, values: seq<InternalId>, uids: seq<nat>, low: Option<Key>, high: Option<Key>,
                right: Option<NodeId>, hint: Option<NodeId>, ord: real, origin: Option<NodeId>): Node
  {
    Node(true, keys, values, [], right, high, hint, 0, low, ord, uids, origin)
  }

  function Inner(keys: seq<Key>, children: seq<NodeId>, low: Option<Key>, high: Option<Key>, right: Option<NodeId>,
                 ord: real, origin: Option<NodeId>): Node
  {
    Node(false, keys, [], children, right, high, None, 1, low, ord, [], origin)
  }

  const ANY: Call := CallInsert(0, 0)

  function OneLeaf(): Tree {
    Tree([Leaf([20], [1], [0], None, None, None, None, 0.0, None)], 0, [(20, 1)], [0], [None])
  }

  function FullLeaf(): Tree {
    Tree([Leaf([20, 30], [1, 2], [0, 1], None, None, None, None, 0.0, None)], 0, [(20, 1), (30, 2)], [0, 0], [None])
  }

  function TwoLeaves(hint0: Option<NodeId>, hint1: Option<NodeId>): seq<Node> {
    [Leaf([20], [1], [0], None, Some(20), Some(1), hint0, 0.0, None),
     Leaf([30], [2], [1], Some(20), None, None, hint1, 1.0, Some(0))]
  }

  function Halves(): Tree {
    Tree(TwoLeaves(None, None), 0, [(20, 1), (30, 2)], [0, 1], [None, None])
  }

  function Grown(hint0: Option<NodeId>, hint1: Option<NodeId>): Tree {
    Tree(TwoLeaves(hint0, hint1) + [Inner([20], [0, 1], None, None, None, 0.0, None)], 2,
         [(20, 1), (30, 2)], [0, 1], [Some(2), Some(2), None])
  }

  // A leaf write, given the arrays it makes.
  lemma WriteAt(t: Tree, op: Op, n: NodeId, keys: seq<Key>, values: seq<InternalId>, uids: seq<nat>)
    requires op.Ins? && Usable(t, n) && t.nodes[n].leaf && HighGe(t.nodes[n].high, op.key)
    requires var nd := t.nodes[n]; var pos := LowerBound(nd.keys, op.key);
      && keys == nd.keys[..pos] + [op.key] + nd.keys[pos..]
      && values == nd.values[..pos] + [op.id] + nd.values[pos..]
      && uids == nd.uids[..pos] + [|t.log|] + nd.uids[pos..]
    ensures StepAt(1, t, op, n) == (WriteLeaf(t, n, op.key, op.id), if |keys| <= 1 then Idle else LeafWantGrow(n))
    ensures WriteLeaf(t, n, op.key, op.id) ==
      Tree(t.nodes[n := t.nodes[n].(keys := keys, values := values, uids := uids)], t.root,
           t.log + [(op.key, op.id)], t.loc + [n], t.par)
  {
  }

  // A leaf split, given its halves.
  lemma SplitAt(t: Tree, n: NodeId, lk: seq<Key>, rk: seq<Key>, lv: seq<InternalId>, rv: seq<InternalId>,
                lu: seq<nat>, ru: seq<nat>, ord: real, loc: seq<NodeId>)
    requires Usable(t, n) && t.nodes[n].leaf && ord == NewOrd(t, n)
    requires var nd := t.nodes[n];
      nd.keys == lk + rk && nd.values == lv + rv && nd.uids == lu + ru && |nd.keys| > 0
    requires |lk| == |lv| == |lu| == LeafMid(t.nodes[n])
    requires |loc| == |t.loc| && forall u :: 0 <= u < |loc| ==> loc[u] == if u in ru then |t.nodes| else t.loc[u]
    ensures var nd, r, sep := t.nodes[n], |t.nodes|, lk[|lk| - 1];
      && StepLeafGrow(t, n) == (SplitLeaf(t, n), Promoted(Promotion(n, sep, r), nd.hint))
      && SplitLeaf(t, n) ==
        Tree(t.nodes[n := nd.(keys := lk, values := lv, uids := lu, right := Some(r), high := Some(sep))]
             + [Leaf(rk, rv, ru, Some(sep), nd.high, nd.right, None, ord, Some(n)).(level := nd.level)],
             t.root, t.log, loc, t.par + [None])
  {
    var nd, mid := t.nodes[n], LeafMid(t.nodes[n]);
    assert nd.keys[..mid] == lk && nd.keys[mid..] == rk;
    assert nd.values[..mid] == lv && nd.values[mid..] == rv;
    assert nd.uids[..mid] == lu && nd.uids[mid..] == ru;
    assert SplitLeaf(t, n).loc == loc;
  }

  // ----- the common beginning -----

  /** Thread 0 reads the root while it is still a leaf, and pauses. Thread 1 inserts 20 and
      30; the leaf is split and a root grown above. */
  lemma Beginning(op: Op) returns (states: seq<State>)
    requires op.Ins?
    ensures RunTo(states, Grown(Some(2), Some(2)), Want(op, None, 0), Idle)
  {
    var waiting := Want(op, None, 0);
    states := [State(1, EmptyTree(), [Idle, Idle])];
    states := Step0(states, EmptyTree(), Idle, Idle, CallInsert(op.key, op.id), EmptyTree(), WantRoot(op));
    states := Step0(states, EmptyTree(), WantRoot(op), Idle, ANY, EmptyTree(), waiting);
    states := FirstInsert(states, waiting);
    states := SecondInsert(states, waiting);
    states := FirstGrowth(states, waiting);
  }

  // From a call to the root node.
  lemma Enter(states: seq<State>, tree: Tree, pc0: PC, key: Key, id: InternalId) returns (more: seq<State>)
    requires RunTo(states, tree, pc0, Idle) && RootMutex !in Holds(pc0) && NodeMutex(tree.root) !in Holds(pc0)
    ensures RunTo(more, tree, pc0, At(Ins(key, id), tree.root))
  {
    hide RunTo;
    var op := Ins(key, id);
    more := Step1(states, tree, pc0, Idle, CallInsert(key, id), tree, WantRoot(op));
    more := Step1(more, tree, pc0, WantRoot(op), ANY, tree, Want(op, None, tree.root));
    more := Step1(more, tree, pc0, Want(op, None, tree.root), ANY, tree, At(op, tree.root));
  }

  lemma FirstInsert(states: seq<State>, waiting: PC) returns (more: seq<State>)
    requires RunTo(states, EmptyTree(), waiting, Idle) && Holds(waiting) == {}
    ensures RunTo(more, OneLeaf(), waiting, Idle)
  {
    hide RunTo, StepAt;
    more := Enter(states, EmptyTree(), waiting, 20, 1);
    FirstWrite();
    more := Step1(more, EmptyTree(), waiting, At(Ins(20, 1), 0), ANY, OneLeaf(), Idle);
  }

  lemma FirstWrite()
    ensures StepAt(1, EmptyTree(), Ins(20, 1), 0) == (OneLeaf(), Idle)
  {
    WriteAt(EmptyTree(), Ins(20, 1), 0, [20], [1], [0]);
    assert WriteLeaf(EmptyTree(), 0, 20, 1) == OneLeaf();
  }

  lemma SecondInsert(states: seq<State>, waiting: PC) returns (more: seq<State>)
    requires RunTo(states, OneLeaf(), waiting, Idle) && Holds(waiting) == {}
    ensures RunTo(more, Halves(), waiting, WantRootCheck(Promotion(0, 20, 1)))
  {
    hide RunTo, StepAt, StepLeafGrow;
    more := Enter(states, OneLeaf(), waiting, 30, 2);
    SecondWrite();
    more := Step1(more, OneLeaf(), waiting, At(Ins(30, 2), 0), ANY, FullLeaf(), LeafWantGrow(0));
    more := Step1(more, FullLeaf(), waiting, LeafWantGrow(0), ANY, FullLeaf(), LeafGrow(0));
    FirstSplit();
    more := Step1(more, FullLeaf(), waiting, LeafGrow(0), ANY, Halves(), WantRootCheck(Promotion(0, 20, 1)));
  }

  lemma SecondWrite()
    ensures StepAt(1, OneLeaf(), Ins(30, 2), 0) == (FullLeaf(), LeafWantGrow(0))
  {
    WriteAt(OneLeaf(), Ins(30, 2), 0, [20, 30], [1, 2], [0, 1]);
    assert WriteLeaf(OneLeaf(), 0, 30, 2) == FullLeaf();
  }

  lemma FirstSplit()
    ensures StepLeafGrow(FullLeaf(), 0) == (Halves(), WantRootCheck(Promotion(0, 20, 1)))
  {
    SplitAt(FullLeaf(), 0, [20], [30], [1], [2], [0], [1], 1.0, [0, 1]);
    assert SplitLeaf(FullLeaf(), 0) == Halves();
  }

  lemma FirstGrowth(states: seq<State>, waiting: PC) returns (more: seq<State>)
    requires RunTo(states, Halves(), waiting, WantRootCheck(Promotion(0, 20, 1))) && Holds(waiting) == {}
    ensures RunTo(more, Grown(Some(2), Some(2)), waiting, Idle)
  {
    var pr := Promotion(0, 20, 1);
    more := Step1(states, Halves(), waiting, WantRootCheck(pr), ANY, Halves(), RootWantGrow(pr));
    more := Step1(more, Halves(), waiting, RootWantGrow(pr), ANY, Halves(), RootGrow(pr));
    assert GrowRoot(Halves(), 0, 20, 1).par == [Some(2), Some(2), None];
    assert GrowRoot(Halves(), 0, 20, 1).nodes == Grown(None, None).nodes;
    more := Step1(more, Halves(), waiting, RootGrow(pr), ANY, Grown(None, None), RootHints(2, [0, 1]));
    more := FirstHints(more, waiting);
  }

  lemma FirstHints(states: seq<State>, waiting: PC) returns (more: seq<State>)
    requires RunTo(states, Grown(None, None), waiting, RootHints(2, [0, 1])) && Holds(waiting) == {}
    ensures RunTo(more, Grown(Some(2), Some(2)), waiting, Idle)
  {
    assert WriteHint(Grown(None, None), 0, 2).nodes == Grown(Some(2), None).nodes;
    assert [0, 1][1..] == [1];
    var half, whole := Grown(Some(2), None), Grown(Some(2), Some(2));
    more := Step1(states, Grown(None, None), waiting, RootHints(2, [0, 1]), ANY, half, RootHints(2, [1]));
    assert WriteHint(Grown(Some(2), None), 1, 2).nodes == Grown(Some(2), Some(2)).nodes;
    assert [1][1..] == [];
    more := Step1(more, half, waiting, RootHints(2, [1]), ANY, whole, RootHints(2, []));
    more := Step1(more, whole, waiting, RootHints(2, []), ANY, whole, Idle);
  }

  // ----- two splits of one leaf, spliced in reverse -----

  const LATE_LOG: seq<(Key, InternalId)> := [(20, 1), (30, 2), (15, 3)]

  // Thread 0 has written 15 beside 20.
  function LateFull(): Tree {
    Tree([Leaf([15, 20], [3, 1], [2, 0], None, Some(20), Some(1), Some(2), 0.0, None),
          Leaf([30], [2], [1], Some(20), None, None, Some(2), 1.0, Some(0)),
          Inner([20], [0, 1], None, None, None, 0.0, None)],
         2, LATE_LOG, [0, 1, 0], [Some(2), Some(2), None])
  }

  // It has split the leaf, and has yet to splice node 3.
  function LateSplit(): Tree {
    Tree([Leaf([15], [3], [2], None, Some(15), Some(3), Some(2), 0.0, None),
          Leaf([30], [2], [1], Some(20), None, None, Some(2), 1.0, Some(0)),
          Inner([20], [0, 1], None, None, None, 0.0, None),
          Leaf([20], [1], [0], Some(15), Some(20), Some(1), None, 0.5, Some(0))],
         2, LATE_LOG, [3, 1, 0], [Some(2), Some(2), None, None])
  }

  // Thread 1 has written 10 into the same leaf.
  function LateFullAgain(): Tree {
    Tree([Leaf([10, 15], [4, 3], [3, 2], None, Some(15), Some(3), Some(2), 0.0, None),
          Leaf([30], [2], [1], Some(20), None, None, Some(2), 1.0, Some(0)),
          Inner([20], [0, 1], None, None, None, 0.0, None),
          Leaf([20], [1], [0], Some(15), Some(20), Some(1), None, 0.5, Some(0))],
         2, LATE_LOG + [(10, 4)], [3, 1, 0, 0], [Some(2), Some(2), None, None])
  }

  // After its split, and later: the parent, its right half if any, two hints and the holders.
  function LateTree(parent: Node, more: seq<Node>, hint1: NodeId, hint4: Option<NodeId>,
                    par: seq<Option<NodeId>>): Tree
  {
    Tree([Leaf([10], [4], [3], None, Some(10), Some(4), Some(2), 0.0, None),
          Leaf([30], [2], [1], Some(20), None, None, Some(hint1), 1.0, Some(0)),
          parent,
          Leaf([20], [1], [0], Some(15), Some(20), Some(1), None, 0.5, Some(0)),
          Leaf([15], [3], [2], Some(10), Some(15), Some(3), hint4, 0.25, Some(0))] + more,
         2, LATE_LOG + [(10, 4)], [3, 1, 4, 0], par)
  }

  function LateTwice(): Tree {
    LateTree(Inner([20], [0, 1], None, None, None, 0.0, None), [], 2, None, [Some(2), Some(2), None, None, None])
  }

  function LateSpliced(hint4: Option<NodeId>): Tree {
    LateTree(Inner([10, 20], [0, 4, 1], None, None, None, 0.0, None), [], 2, hint4,
             [Some(2), Some(2), None, None, Some(2)])
  }

  function LateParents(hint1: NodeId): Tree {
    LateTree(Inner([10], [0, 4], None, Some(20), Some(5), 0.0, None),
             [Inner([], [1], Some(20), None, None, 1.0, Some(2))], hint1, Some(2),
             [Some(2), Some(5), None, None, Some(2), None])
  }

  function LateEnd(): Tree {
    LateTree(Inner([15, 10], [0, 3, 4], None, Some(20), Some(5), 0.0, None),
             [Inner([], [1], Some(20), None, None, 1.0, Some(2))],
             5, Some(2), [Some(2), Some(5), None, Some(2), Some(2), None])
  }

  lemma LateWrite()
    ensures StepAt(1, Grown(Some(2), Some(2)), Ins(15, 3), 0) == (LateFull(), LeafWantGrow(0))
  {
    WriteAt(Grown(Some(2), Some(2)), Ins(15, 3), 0, [15, 20], [3, 1], [2, 0]);
    assert WriteLeaf(Grown(Some(2), Some(2)), 0, 15, 3) == LateFull();
  }

  lemma LateFirstSplit()
    ensures StepLeafGrow(LateFull(), 0) == (LateSplit(), WantParent(Promotion(0, 15, 3), None, 2))
  {
    SplitAt(LateFull(), 0, [15], [20], [3], [1], [2], [0], 0.5, [3, 1, 0]);
    assert SplitLeaf(LateFull(), 0) == LateSplit();
  }

  lemma LateWriteAgain()
    ensures StepAt(1, LateSplit(), Ins(10, 4), 0) == (LateFullAgain(), LeafWantGrow(0))
  {
    WriteAt(LateSplit(), Ins(10, 4), 0, [10, 15], [4, 3], [3, 2]);
    assert WriteLeaf(LateSplit(), 0, 10, 4) == LateFullAgain();
  }

  lemma LateSecondSplit()
    ensures StepLeafGrow(LateFullAgain(), 0) == (LateTwice(), WantParent(Promotion(0, 10, 4), None, 2))
  {
    SplitAt(LateFullAgain(), 0, [10], [15], [4], [3], [3], [2], 0.25, [3, 1, 4, 0]);
    assert SplitLeaf(LateFullAgain(), 0) == LateTwice();
  }

  lemma LateDescends()
    ensures StepAt(1, LateSplit(), Ins(10, 4), 2) == (LateSplit(), Want(Ins(10, 4), Some(2), 0))
  {
  }

  lemma LateSplice()
    ensures StepAtParent(LateTwice(), Promotion(0, 10, 4), 2) == (LateSpliced(None), WantSpliced(4, 2))
    ensures StepSpliced(1, LateSpliced(None), 4, 2) == (LateSpliced(Some(2)), InnerWantGrow(2))
  {
    assert InsertAt([20], 0, 10) == [10, 20] && InsertAt([0, 1], 1, 4) == [0, 4, 1];
    assert Splice(LateTwice(), 2, 0, 10, 4) == LateSpliced(None);
    assert WriteHint(LateSpliced(None), 4, 2) == LateSpliced(Some(2));
  }

  lemma LateInner()
    ensures StepInnerGrow(LateSpliced(Some(2)), 2) == (LateParents(2), Rehome(Promotion(2, 20, 5), 0))
  {
    var t := LateSpliced(Some(2));
    assert [10, 20][..1] == [10] && [10, 20][2..] == [];
    assert [0, 4, 1][..2] == [0, 4] && [0, 4, 1][2..] == [1];
    assert SplitInner(t, 2).par == LateParents(2).par;
    assert SplitInner(t, 2) == LateParents(2);
  }

  lemma LateRehome()
    ensures StepRehome(LateParents(2), Promotion(2, 20, 5), 0) ==
      (LateParents(2), RehomeChild(Promotion(2, 20, 5), 0, 1))
    ensures StepRehomeChild(LateParents(2), Promotion(2, 20, 5), 0, 1) ==
      (LateParents(5), Rehome(Promotion(2, 20, 5), 1))
    ensures StepRehome(LateParents(5), Promotion(2, 20, 5), 1) == (LateParents(5), WantRootCheck(Promotion(2, 20, 5)))
  {
    assert WriteHint(LateParents(2), 1, 5) == LateParents(5);
  }

  lemma LateLastSplice()
    ensures StepAtParent(LateParents(5), Promotion(0, 15, 3), 2) == (LateEnd(), WantSpliced(3, 2))
  {
    assert InsertAt([10], 0, 15) == [15, 10] && InsertAt([0, 4], 1, 3) == [0, 3, 4];
    assert Splice(LateParents(5), 2, 0, 15, 3) == LateEnd();
  }

  /** The separators of a reachable inner node need not be sorted. */
  lemma UnsortedRun() returns (states: seq<State>)
    ensures Run(states) && states[0].capacity == 1 && |states[0].pcs| == 2
    ensures var tree := states[|states| - 1].tree;
      2 < |tree.nodes| && !tree.nodes[2].leaf && tree.nodes[2].keys == [15, 10] && !Sorted(tree.nodes[2].keys)
  {
    hide StepAt, StepLeafGrow, StepAtParent, StepSpliced, StepInnerGrow, StepRehome, StepRehomeChild;
    var op0, p0 := Ins(15, 3), Promotion(0, 15, 3);
    states := Beginning(op0);
    states := LateFirst(states, op0, p0);
    states := LateSecond(states, p0);
    states := LateThird(states, p0);
    var keys := states[|states| - 1].tree.nodes[2].keys;
    assert keys == LateEnd().nodes[2].keys && keys[0] == 15 && keys[1] == 10;
  }

  lemma LateFirst(states: seq<State>, op0: Op, p0: Promotion) returns (more: seq<State>)
    requires op0 == Ins(15, 3) && p0 == Promotion(0, 15, 3)
    requires RunTo(states, Grown(Some(2), Some(2)), Want(op0, None, 0), Idle)
    ensures RunTo(more, LateSplit(), WantParent(p0, None, 2), Idle)
  {
    hide RunTo, StepAt, StepLeafGrow;
    var g := Grown(Some(2), Some(2));
    LateWrite();
    LateFirstSplit();
    more := Step0(states, g, Want(op0, None, 0), Idle, ANY, g, At(op0, 0));
    more := Step0(more, g, At(op0, 0), Idle, ANY, LateFull(), LeafWantGrow(0));
    more := Step0(more, LateFull(), LeafWantGrow(0), Idle, ANY, LateFull(), LeafGrow(0));
    more := Step0(more, LateFull(), LeafGrow(0), Idle, ANY, LateSplit(), WantParent(p0, None, 2));
  }

  lemma LateSecond(states: seq<State>, p0: Promotion) returns (more: seq<State>)
    requires RunTo(states, LateSplit(), WantParent(p0, None, 2), Idle)
    ensures RunTo(more, LateTwice(), WantParent(p0, None, 2), WantParent(Promotion(0, 10, 4), None, 2))
  {
    hide RunTo, StepAt, StepLeafGrow;
    var op1, pc0 := Ins(10, 4), WantParent(p0, None, 2);
    LateDescends();
    LateWriteAgain();
    LateSecondSplit();
    more := Enter(states, LateSplit(), pc0, 10, 4);
    more := Step1(more, LateSplit(), pc0, At(op1, 2), ANY, LateSplit(), Want(op1, Some(2), 0));
    more := Step1(more, LateSplit(), pc0, Want(op1, Some(2), 0), ANY, LateSplit(), At(op1, 0));
    more := Step1(more, LateSplit(), pc0, At(op1, 0), ANY, LateFullAgain(), LeafWantGrow(0));
    more := Step1(more, LateFullAgain(), pc0, LeafWantGrow(0), ANY, LateFullAgain(), LeafGrow(0));
    more := Step1(more, LateFullAgain(), pc0, LeafGrow(0), ANY, LateTwice(), WantParent(Promotion(0, 10, 4), None, 2));
  }

  lemma LateThird(states: seq<State>, p0: Promotion) returns (more: seq<State>)
    requires p0 == Promotion(0, 15, 3)
    requires RunTo(states, LateTwice(), WantParent(p0, None, 2), WantParent(Promotion(0, 10, 4), None, 2))
    ensures exists pc0, pc1 :: RunTo(more, LateEnd(), pc0, pc1)
  {
    hide RunTo, StepAtParent, StepSpliced, StepInnerGrow, LateTwice, LateSpliced, LateParents;
    var pc0, p1, p2 := WantParent(p0, None, 2), Promotion(0, 10, 4), Promotion(2, 20, 5);
    LateSplice();
    more := Step1(states, LateTwice(), pc0, WantParent(p1, None, 2), ANY, LateTwice(), AtParent(p1, 2));
    more := Step1(more, LateTwice(), pc0, AtParent(p1, 2), ANY, LateSpliced(None), WantSpliced(4, 2));
    more := Step1(more, LateSpliced(None), pc0, WantSpliced(4, 2), ANY, LateSpliced(Some(2)), InnerWantGrow(2));
    more := LateFourth(more, p0, p2);
  }

  lemma LateFourth(states: seq<State>, p0: Promotion, p2: Promotion) returns (more: seq<State>)
    requires p0 == Promotion(0, 15, 3) && p2 == Promotion(2, 20, 5)
    requires RunTo(states, LateSpliced(Some(2)), WantParent(p0, None, 2), InnerWantGrow(2))
    ensures RunTo(more, LateEnd(), WantSpliced(3, 2), WantRootCheck(p2))
  {
    hide RunTo, StepInnerGrow, LateSpliced, LateParents, LateEnd;
    LateInner();
    var pc0 := WantParent(p0, None, 2);
    more := Step1(states, LateSpliced(Some(2)), pc0, InnerWantGrow(2), ANY, LateSpliced(Some(2)), InnerGrow(2));
    more := Step1(more, LateSpliced(Some(2)), pc0, InnerGrow(2), ANY, LateParents(2), Rehome(p2, 0));
    more := LateLast(more, p0, p2);
  }

  lemma LateLast(states: seq<State>, p0: Promotion, p2: Promotion) returns (more: seq<State>)
    requires p0 == Promotion(0, 15, 3) && p2 == Promotion(2, 20, 5)
    requires RunTo(states, LateParents(2), WantParent(p0, None, 2), Rehome(p2, 0))
    ensures RunTo(more, LateEnd(), WantSpliced(3, 2), WantRootCheck(p2))
  {
    hide RunTo, StepRehome, StepRehomeChild, LateParents, LateEnd;
    var pc0 := WantParent(p0, None, 2);
    LateRehome();
    more := Step1(states, LateParents(2), pc0, Rehome(p2, 0), ANY, LateParents(2), RehomeChild(p2, 0, 1));
    more := Step1(more, LateParents(2), pc0, RehomeChild(p2, 0, 1), ANY, LateParents(5), Rehome(p2, 1));
    more := Step1(more, LateParents(5), pc0, Rehome(p2, 1), ANY, LateParents(5), WantRootCheck(p2));
    more := LateEnds(more, p0, p2);
  }

  lemma LateEnds(states: seq<State>, p0: Promotion, p2: Promotion) returns (more: seq<State>)
    requires p0 == Promotion(0, 15, 3)
    requires RunTo(states, LateParents(5), WantParent(p0, None, 2), WantRootCheck(p2))
    ensures RunTo(more, LateEnd(), WantSpliced(3, 2), WantRootCheck(p2))
  {
    hide RunTo, StepAtParent, LateParents, LateEnd;
    LateLastSplice();
    var pc0 := WantParent(p0, None, 2);
    more := Step0(states, LateParents(5), pc0, WantRootCheck(p2), ANY, LateParents(5), AtParent(p0, 2));
    more := Step0(more, LateParents(5), AtParent(p0, 2), WantRootCheck(p2), ANY, LateEnd(), WantSpliced(3, 2));
  }

  // ----- a list that changes under the walk -----

  const MOVED_LOG: seq<(Key, InternalId)> := [(20, 1), (30, 2), (10, 4)]

  // Thread 1 has written 10 beside 20.
  function MovedFull(): Tree {
    Tree([Leaf([10, 20], [4, 1], [2, 0], None, Some(20), Some(1), Some(2), 0.0, None),
          Leaf([30], [2], [1], Some(20), None, None, Some(2), 1.0, Some(0)),
          Inner([20], [0, 1], None, None, None, 0.0, None)],
         2, MOVED_LOG, [0, 1, 0], [Some(2), Some(2), None])
  }

  // After the split, and later: leaf 1, the parent, the hint of leaf 3, what was made since.
  function MovedTree(leaf1: Node, parent: Node, hint3: Option<NodeId>, more: seq<Node>, log: seq<(Key, InternalId)>,
                     loc: seq<NodeId>, par: seq<Option<NodeId>>): Tree
  {
    Tree([Leaf([10], [4], [2], None, Some(10), Some(3), Some(2), 0.0, None), leaf1, parent,
          Leaf([20], [1], [0], Some(10), Some(20), Some(1), hint3, 0.5, Some(0))] + more,
         2, log, loc, par)
  }

  function Leaf30(hint: NodeId): Node { Leaf([30], [2], [1], Some(20), None, None, Some(hint), 1.0, Some(0)) }

  function MovedSplit(): Tree {
    MovedTree(Leaf30(2), Inner([20], [0, 1], None, None, None, 0.0, None), None, [], MOVED_LOG, [3, 1, 0],
              [Some(2), Some(2), None, None])
  }

  function MovedSpliced(hint3: Option<NodeId>): Tree {
    MovedTree(Leaf30(2), Inner([10, 20], [0, 3, 1], None, None, None, 0.0, None), hint3, [], MOVED_LOG, [3, 1, 0],
              [Some(2), Some(2), None, Some(2)])
  }

  const LOWER: Node := Inner([10], [0, 3], None, Some(20), Some(4), 0.0, None)

  // The parent is split; node 4 is the new right half, and leaf 1 its only child.
  function MovedParents(hint1: NodeId): Tree {
    MovedTree(Leaf30(hint1), LOWER, Some(2), [Inner([], [1], Some(20), None, None, 1.0, Some(2))], MOVED_LOG, [3, 1, 0],
              [Some(2), Some(4), None, Some(2), None])
  }

  // Thread 0 has written 40 into leaf 1.
  function MovedAgain(): Tree {
    MovedTree(Leaf([30, 40], [2, 3], [1, 3], Some(20), None, None, Some(4), 1.0, Some(0)), LOWER, Some(2),
              [Inner([], [1], Some(20), None, None, 1.0, Some(2))], MOVED_LOG + [(40, 3)], [3, 1, 0, 1],
              [Some(2), Some(4), None, Some(2), None])
  }

  // It has split leaf 1; node 4 is as given.
  function MovedHalves(four: Node, par5: Option<NodeId>): Tree {
    MovedTree(Leaf([30], [2], [1], Some(20), Some(30), Some(5), Some(4), 1.0, Some(0)), LOWER, Some(2),
              [four, Leaf([40], [3], [3], Some(30), None, None, None, 2.0, Some(1))],
              MOVED_LOG + [(40, 3)], [3, 1, 0, 5], [Some(2), Some(4), None, Some(2), None, par5])
  }

  function MovedPending(): Tree { MovedHalves(Inner([], [1], Some(20), None, None, 1.0, Some(2)), None) }
  function MovedEnd(): Tree { MovedHalves(Inner([30], [1, 5], Some(20), None, None, 1.0, Some(2)), Some(4)) }

  lemma MovedWrite()
    ensures StepAt(1, Grown(Some(2), Some(2)), Ins(10, 4), 2) == (Grown(Some(2), Some(2)), Want(Ins(10, 4), Some(2), 0))
    ensures StepAt(1, Grown(Some(2), Some(2)), Ins(10, 4), 0) == (MovedFull(), LeafWantGrow(0))
  {
    WriteAt(Grown(Some(2), Some(2)), Ins(10, 4), 0, [10, 20], [4, 1], [2, 0]);
    assert WriteLeaf(Grown(Some(2), Some(2)), 0, 10, 4) == MovedFull();
  }

  lemma MovedFirstSplit()
    ensures StepLeafGrow(MovedFull(), 0) == (MovedSplit(), WantParent(Promotion(0, 10, 3), None, 2))
  {
    SplitAt(MovedFull(), 0, [10], [20], [4], [1], [2], [0], 0.5, [3, 1, 0]);
    assert SplitLeaf(MovedFull(), 0) == MovedSplit();
  }

  lemma MovedSplice()
    ensures StepAtParent(MovedSplit(), Promotion(0, 10, 3), 2) == (MovedSpliced(None), WantSpliced(3, 2))
    ensures StepSpliced(1, MovedSpliced(None), 3, 2) == (MovedSpliced(Some(2)), InnerWantGrow(2))
  {
    assert InsertAt([20], 0, 10) == [10, 20] && InsertAt([0, 1], 1, 3) == [0, 3, 1];
    assert Splice(MovedSplit(), 2, 0, 10, 3) == MovedSpliced(None);
    assert WriteHint(MovedSpliced(None), 3, 2) == MovedSpliced(Some(2));
  }

  lemma MovedInner()
    ensures StepInnerGrow(MovedSpliced(Some(2)), 2) == (MovedParents(2), Rehome(Promotion(2, 20, 4), 0))
  {
    var t := MovedSpliced(Some(2));
    assert [10, 20][..1] == [10] && [10, 20][2..] == [];
    assert [0, 3, 1][..2] == [0, 3] && [0, 3, 1][2..] == [1];
    assert SplitInner(t, 2).par == MovedParents(2).par;
    assert SplitInner(t, 2) == MovedParents(2);
  }

  lemma MovedRehome()
    ensures StepRehome(MovedParents(2), Promotion(2, 20, 4), 0) ==
      (MovedParents(2), RehomeChild(Promotion(2, 20, 4), 0, 1))
    ensures StepRehomeChild(MovedParents(2), Promotion(2, 20, 4), 0, 1) ==
      (MovedParents(4), Rehome(Promotion(2, 20, 4), 1))
  {
    assert WriteHint(MovedParents(2), 1, 4) == MovedParents(4);
  }

  lemma MovedHops()
    ensures StepAt(1, MovedParents(4), Ins(40, 3), 0) == (MovedParents(4), Want(Ins(40, 3), Some(0), 3))
    ensures StepAt(1, MovedParents(4), Ins(40, 3), 3) == (MovedParents(4), Want(Ins(40, 3), Some(3), 1))
  {
  }

  lemma MovedSecondWrite()
    ensures StepAt(1, MovedParents(4), Ins(40, 3), 1) == (MovedAgain(), LeafWantGrow(1))
  {
    WriteAt(MovedParents(4), Ins(40, 3), 1, [30, 40], [2, 3], [1, 3]);
    assert WriteLeaf(MovedParents(4), 1, 40, 3) == MovedAgain();
  }

  lemma MovedSecondSplit()
    ensures StepLeafGrow(MovedAgain(), 1) == (MovedPending(), WantParent(Promotion(1, 30, 5), None, 4))
  {
    SplitAt(MovedAgain(), 1, [30], [40], [2], [3], [1], [3], 2.0, [3, 1, 0, 5]);
    assert SplitLeaf(MovedAgain(), 1) == MovedPending();
  }

  lemma MovedSecondSplice()
    ensures StepAtParent(MovedPending(), Promotion(1, 30, 5), 4) == (MovedEnd(), WantSpliced(5, 4))
  {
    assert InsertAt([], 0, 30) == [30] && InsertAt([1], 1, 5) == [1, 5];
    assert Splice(MovedPending(), 4, 0, 30, 5) == MovedEnd();
  }

  /** A run in which the list that the loop walks changes between two of its steps: when the
      loop began there was one child, and now that it is about to look at the second position
      there are two. */
  lemma ChangedListRun() returns (states: seq<State>, i: nat, pr: Promotion)
    ensures Run(states) && states[0].capacity == 1 && |states[0].pcs| == 2
    ensures InLoopThrough(states, i, |states| - 1, 1, pr)
    ensures states[i].pcs[1] == Rehome(pr, 0) && states[|states| - 1].pcs[1] == Rehome(pr, 1)
    ensures ChildrenOf(states[i].tree, pr.right) == [1] && ChildrenOf(states[|states| - 1].tree, pr.right) == [1, 5]
  {
    var op0 := Ins(40, 3);
    pr := Promotion(2, 20, 4);
    states := Beginning(op0);
    states := MovedFirst(states, op0);
    states := MovedSecond(states, op0, pr);
    i := |states| - 1;
    assert InLoop(states[i], 1, pr);
    var more := MovedThird(states, op0, pr, i);
    states := MovedFourth(more, op0, pr, i, states[i]);
  }

  lemma MovedFirst(states: seq<State>, op0: Op) returns (more: seq<State>)
    requires RunTo(states, Grown(Some(2), Some(2)), Want(op0, None, 0), Idle)
    ensures RunTo(more, MovedSplit(), Want(op0, None, 0), WantParent(Promotion(0, 10, 3), None, 2))
  {
    hide RunTo, StepAt, StepLeafGrow;
    var g, op1, pc0 := Grown(Some(2), Some(2)), Ins(10, 4), Want(op0, None, 0);
    MovedWrite();
    MovedFirstSplit();
    more := Enter(states, g, pc0, 10, 4);
    more := Step1(more, g, pc0, At(op1, 2), ANY, g, Want(op1, Some(2), 0));
    more := Step1(more, g, pc0, Want(op1, Some(2), 0), ANY, g, At(op1, 0));
    more := Step1(more, g, pc0, At(op1, 0), ANY, MovedFull(), LeafWantGrow(0));
    more := Step1(more, MovedFull(), pc0, LeafWantGrow(0), ANY, MovedFull(), LeafGrow(0));
    more := Step1(more, MovedFull(), pc0, LeafGrow(0), ANY, MovedSplit(), WantParent(Promotion(0, 10, 3), None, 2));
  }

  lemma MovedSecond(states: seq<State>, op0: Op, pr: Promotion) returns (more: seq<State>)
    requires pr == Promotion(2, 20, 4)
    requires RunTo(states, MovedSplit(), Want(op0, None, 0), WantParent(Promotion(0, 10, 3), None, 2))
    ensures RunTo(more, MovedParents(2), Want(op0, None, 0), Rehome(pr, 0))
  {
    hide RunTo, StepAtParent, StepSpliced, StepInnerGrow, MovedSplit, MovedSpliced, MovedParents;
    var pc0, p1 := Want(op0, None, 0), Promotion(0, 10, 3);
    MovedSplice();
    MovedInner();
    more := Step1(states, MovedSplit(), pc0, WantParent(p1, None, 2), ANY, MovedSplit(), AtParent(p1, 2));
    more := Step1(more, MovedSplit(), pc0, AtParent(p1, 2), ANY, MovedSpliced(None), WantSpliced(3, 2));
    more := Step1(more, MovedSpliced(None), pc0, WantSpliced(3, 2), ANY, MovedSpliced(Some(2)), InnerWantGrow(2));
    more := Step1(more, MovedSpliced(Some(2)), pc0, InnerWantGrow(2), ANY, MovedSpliced(Some(2)), InnerGrow(2));
    more := Step1(more, MovedSpliced(Some(2)), pc0, InnerGrow(2), ANY, MovedParents(2), Rehome(pr, 0));
  }

  // The loop writes the one hint it has to, then thread 0 hops to that leaf.
  lemma MovedThird(states: seq<State>, op0: Op, pr: Promotion, i: nat) returns (more: seq<State>)
    requires op0 == Ins(40, 3) && pr == Promotion(2, 20, 4) && Looping(states, i, pr)
    requires RunTo(states, MovedParents(2), Want(op0, None, 0), Rehome(pr, 0))
    ensures RunTo(more, MovedParents(4), At(op0, 1), Rehome(pr, 1)) && Looping(more, i, pr) && states <= more
  {
    hide RunTo, StepAt, StepRehome, StepRehomeChild, Looping;
    MovedRehome();
    MovedHops();
    var t0, t := MovedParents(2), MovedParents(4);
    more := Step1(states, t0, Want(op0, None, 0), Rehome(pr, 0), ANY, t0, RehomeChild(pr, 0, 1));
    LoopingOn(states, more, i, pr, t0, Want(op0, None, 0), RehomeChild(pr, 0, 1));
    var next := Step1(more, t0, Want(op0, None, 0), RehomeChild(pr, 0, 1), ANY, t, Rehome(pr, 1));
    LoopingOn(more, next, i, pr, t, Want(op0, None, 0), Rehome(pr, 1));
    more := Step0(next, t, Want(op0, None, 0), Rehome(pr, 1), ANY, t, At(op0, 0));
    more := Step0(more, t, At(op0, 0), Rehome(pr, 1), ANY, t, Want(op0, Some(0), 3));
    more := Step0(more, t, Want(op0, Some(0), 3), Rehome(pr, 1), ANY, t, At(op0, 3));
    more := Step0(more, t, At(op0, 3), Rehome(pr, 1), ANY, t, Want(op0, Some(3), 1));
    more := Step0(more, t, Want(op0, Some(3), 1), Rehome(pr, 1), ANY, t, At(op0, 1));
  }

  lemma LoopingOn(states: seq<State>, more: seq<State>, i: nat, pr: Promotion, tree: Tree, pc0: PC, pc1: PC)
    requires Looping(states, i, pr) && states <= more && |more| == |states| + 1
    requires RunTo(more, tree, pc0, pc1) && (pc1.Rehome? || pc1.RehomeChild?) && pc1.pr == pr
    ensures Looping(more, i, pr)
  {
  }

  // Thread 0 splits that leaf, finds the new hint, and splices into the list.
  lemma MovedFourth(states: seq<State>, op0: Op, pr: Promotion, i: nat, s: State) returns (more: seq<State>)
    requires op0 == Ins(40, 3) && pr == Promotion(2, 20, 4) && Looping(states, i, pr) && states[i] == s
    requires RunTo(states, MovedParents(4), At(op0, 1), Rehome(pr, 1))
    ensures RunTo(more, MovedEnd(), WantSpliced(5, 4), Rehome(pr, 1)) && Looping(more, i, pr) && more[i] == s
  {
    hide RunTo, StepAt, StepLeafGrow, StepAtParent, MovedParents, MovedAgain, MovedPending;
    MovedSecondWrite();
    MovedSecondSplit();
    var p3, pc1 := Promotion(1, 30, 5), Rehome(pr, 1);
    more := Step0(states, MovedParents(4), At(op0, 1), pc1, ANY, MovedAgain(), LeafWantGrow(1));
    more := Step0(more, MovedAgain(), LeafWantGrow(1), pc1, ANY, MovedAgain(), LeafGrow(1));
    more := Step0(more, MovedAgain(), LeafGrow(1), pc1, ANY, MovedPending(), WantParent(p3, None, 4));
    more := MovedLast(more, pr, i, s);
  }

  lemma MovedLast(states: seq<State>, pr: Promotion, i: nat, s: State) returns (more: seq<State>)
    requires pr == Promotion(2, 20, 4) && Looping(states, i, pr) && states[i] == s
    requires RunTo(states, MovedPending(), WantParent(Promotion(1, 30, 5), None, 4), Rehome(pr, 1))
    ensures RunTo(more, MovedEnd(), WantSpliced(5, 4), Rehome(pr, 1)) && Looping(more, i, pr) && more[i] == s
  {
    hide RunTo, StepAtParent, MovedPending, MovedEnd;
    MovedSecondSplice();
    var p3, pc1 := Promotion(1, 30, 5), Rehome(pr, 1);
    more := Step0(states, MovedPending(), WantParent(p3, None, 4), pc1, ANY, MovedPending(), AtParent(p3, 4));
    more := Step0(more, MovedPending(), AtParent(p3, 4), pc1, ANY, MovedEnd(), WantSpliced(5, 4));
  }
}
