/** The list that `split_internal_` walks. The loop over the children of the new right half
    holds the left half's mutex, not the right half's: as soon as one moved child carries
    its new hint, another thread may splice into that list. The source walks it with
    iterators, which such an insertion invalidates. Here is exactly when it happens. */
module BLinkLists {
  import opened Basics
  import opened TreeKeys
  import opened BLinkTree
  import opened BLinkThreads
  import opened BLinkInvariant
  import opened BLinkSteps
  import opened BLinkTheorems

  // The next step of a thread at pc splices into n, or splits n.
  predicate EditsList(t: Tree, pc: PC, n: NodeId) {
    match pc
    case AtParent(pr, m) => m == n < |t.nodes| && pr.child in t.nodes[n].children
    case InnerGrow(m) => m == n
    case _ => false
  }

  // One step of the run is such a step.
  ghost predicate Edits(s: State, s': State, n: NodeId) {
    exists u: nat, call: Call :: Ready(s, u) && s' == Step(s, u, call) && EditsList(s.tree, s.pcs[u], n)
  }

  // A splice makes the list longer and a split makes it shorter; no other step touches it.
  lemma StepEditsIff(capacity: nat, t: Tree, pc: PC, call: Call, n: NodeId)
    requires TreeOK(t) && PcOK(capacity, t, pc) && n < |t.nodes| && !t.nodes[n].leaf
    ensures var t' := StepThread(capacity, t, pc, call).0;
      n < |t'.nodes| && (t'.nodes[n].children != t.nodes[n].children <==> EditsList(t, pc, n))
  {
    hide TreeOK, PcOK, StepAt, StepLeafGrow, StepAtParent, StepInnerGrow, StepRootGrow;
    match pc
    case At(op, m) => AtLeavesLists(capacity, t, op, m, n);
    case LeafGrow(m) => LeafSplitLeavesLists(t, m, n);
    case AtParent(pr, m) => SpliceEdits(capacity, t, pr, m, n);
    case InnerGrow(m) => SplitEdits(capacity, t, m, n);
    case RootGrow(pr) => GrowthLeavesLists(t, pr, n);
    case _ =>
  }

  lemma AtLeavesLists(capacity: nat, t: Tree, op: Op, m: NodeId, n: NodeId)
    requires n < |t.nodes|
    ensures var t' := StepAt(capacity, t, op, m).0; n < |t'.nodes| && t'.nodes[n].children == t.nodes[n].children
  {
  }

  lemma LeafSplitLeavesLists(t: Tree, m: NodeId, n: NodeId)
    requires n < |t.nodes|
    ensures var t' := StepLeafGrow(t, m).0; n < |t'.nodes| && t'.nodes[n].children == t.nodes[n].children
  {
  }

  lemma GrowthLeavesLists(t: Tree, pr: Promotion, n: NodeId)
    requires n < |t.nodes|
    ensures var t' := StepRootGrow(t, pr).0; n < |t'.nodes| && t'.nodes[n].children == t.nodes[n].children
  {
  }

  lemma SpliceEdits(capacity: nat, t: Tree, pr: Promotion, m: NodeId, n: NodeId)
    requires TreeOK(t) && PcOK(capacity, t, AtParent(pr, m)) && n < |t.nodes|
    ensures var t' := StepAtParent(t, pr, m).0;
      n < |t'.nodes| && (t'.nodes[n].children != t.nodes[n].children <==> m == n && pr.child in t.nodes[n].children)
  {
    HolderAt(t, m, pr.child);
  }

  lemma SplitEdits(capacity: nat, t: Tree, m: NodeId, n: NodeId)
    requires TreeOK(t) && PcOK(capacity, t, InnerGrow(m)) && n < |t.nodes|
    ensures var t' := StepInnerGrow(t, m).0;
      n < |t'.nodes| && (t'.nodes[n].children != t.nodes[n].children <==> m == n)
  {
    var nd := t.nodes[m];
    assert NodeShape(nd);
    assert |nd.children[..InnerMid(nd) + 1]| < |nd.children|;
  }

  // ----- over runs -----

  // Thread t is in the loop that moves children over to pr.right.
  ghost predicate InLoop(s: State, t: nat, pr: Promotion) {
    t < |s.pcs| && (s.pcs[t].Rehome? || s.pcs[t].RehomeChild?) && s.pcs[t].pr == pr
  }

  ghost predicate InLoopThrough(states: seq<State>, i: nat, j: nat, t: nat, pr: Promotion) {
    i <= j < |states| && forall k :: i <= k <= j ==> InLoop(states[k], t, pr)
  }

  lemma LoopFacts(states: seq<State>, k: nat, t: nat, pr: Promotion)
    requires Run(states) && states[0].capacity >= 1 && k < |states| && InLoop(states[k], t, pr)
    ensures TreeOK(states[k].tree) && pr.right < |states[k].tree.nodes| && !states[k].tree.nodes[pr.right].leaf
    ensures NodeShape(states[k].tree.nodes[pr.right])
  {
    RunKeepsInv(states, k);
    assert PcOK(states[k].capacity, states[k].tree, states[k].pcs[t]);
  }

  // One step of the run changes the list if and only if it edits it.
  lemma RunEditsIff(states: seq<State>, k: nat, n: NodeId)
    requires Run(states) && states[0].capacity >= 1 && k + 1 < |states|
    requires n < |states[k].tree.nodes| && !states[k].tree.nodes[n].leaf
    ensures n < |states[k + 1].tree.nodes|
    ensures states[k + 1].tree.nodes[n].children != states[k].tree.nodes[n].children <==>
      Edits(states[k], states[k + 1], n)
  {
    hide TreeOK, PcOK, Inv, EditsList, StepThread;
    RunKeepsInv(states, k);
    var s, s' := states[k], states[k + 1];
    assert Follows(s, s');
    forall u: nat, call: Call | Ready(s, u) && s' == Step(s, u, call)
      ensures n < |s'.tree.nodes|
      ensures s'.tree.nodes[n].children != s.tree.nodes[n].children <==> EditsList(s.tree, s.pcs[u], n)
    {
      InvParts(s, u, u);
      StepEditsIff(s.capacity, s.tree, s.pcs[u], call, n);
    }
  }

  function ChildrenOf(t: Tree, n: NodeId): seq<NodeId> { if n < |t.nodes| then t.nodes[n].children else [] }

  ghost predicate SameList(states: seq<State>, i: nat, j: nat, n: NodeId)
    requires i <= j < |states|
  {
    forall k :: i <= k <= j ==> ChildrenOf(states[k].tree, n) == ChildrenOf(states[i].tree, n)
  }

  ghost predicate Unedited(states: seq<State>, i: nat, j: nat, n: NodeId)
    requires i <= j < |states|
  {
    forall k :: i <= k < j ==> !Edits(states[k], states[k + 1], n)
  }

  lemma OneMoreState(states: seq<State>, i: nat, j: nat, n: NodeId)
    requires i < j < |states|
    ensures SameList(states, i, j, n) <==>
      SameList(states, i, j - 1, n) && ChildrenOf(states[j].tree, n) == ChildrenOf(states[i].tree, n)
    ensures Unedited(states, i, j, n) <==>
      Unedited(states, i, j - 1, n) && !Edits(states[j - 1], states[j], n)
    ensures SameList(states, i, j - 1, n) ==>
      ChildrenOf(states[j - 1].tree, n) == ChildrenOf(states[i].tree, n)
  {
    hide Edits;
    assert states[(j - 1) + 1] == states[j];
  }

  /** While a thread is in the loop, the list it walks is the same in every state if and only
      if no step in between splices into the new right half or splits it. */
  lemma {:induction false} ListStaysIff(states: seq<State>, i: nat, j: nat, t: nat, pr: Promotion)
    requires Run(states) && states[0].capacity >= 1 && InLoopThrough(states, i, j, t, pr)
    ensures pr.right < |states[i].tree.nodes| && pr.right < |states[j].tree.nodes|
    ensures SameList(states, i, j, pr.right) <==> Unedited(states, i, j, pr.right)
    decreases j
  {
    hide Edits, TreeOK, Run, InLoop, SameList, Unedited;
    assert InLoop(states[i], t, pr) && InLoop(states[j], t, pr);
    LoopFacts(states, i, t, pr);
    LoopFacts(states, j, t, pr);
    if i < j {
      assert InLoop(states[j - 1], t, pr);
      LoopFacts(states, j - 1, t, pr);
      ListStaysIff(states, i, j - 1, t, pr);
      RunEditsIff(states, j - 1, pr.right);
      OneMoreState(states, i, j, pr.right);
    } else {
      Alone(states, i, pr.right);
    }
  }

  lemma Alone(states: seq<State>, i: nat, n: NodeId)
    requires i < |states|
    ensures SameList(states, i, i, n) && Unedited(states, i, i, n)
  {
  }

  /** If so, the loop visits the list it was given: at each position the child that stands
      there, and no position beyond the end. */
  lemma {:induction false} LoopVisitsList(states: seq<State>, i: nat, j: nat, t: nat, pr: Promotion)
    requires Run(states) && states[0].capacity >= 1 && InLoopThrough(states, i, j, t, pr)
    requires states[i].pcs[t] == Rehome(pr, 0)
    requires Unedited(states, i, j, pr.right)
    ensures pr.right < |states[i].tree.nodes|
    ensures var list, pc := states[i].tree.nodes[pr.right].children, states[j].pcs[t];
      pc.next <= |list| && (pc.RehomeChild? ==> pc.next < |list| && pc.moved == list[pc.next])
    decreases j
  {
    hide Edits, TreeOK, Inv, InLoop, SameList, Unedited, Run, Follows;
    assert InLoop(states[j], t, pr) && InLoop(states[i], t, pr);
    LoopFacts(states, i, t, pr);
    if i < j {
      OneMoreState(states, i, j, pr.right);
      assert InLoop(states[j - 1], t, pr);
      LoopVisitsList(states, i, j - 1, t, pr);
      ListStaysIff(states, i, j - 1, t, pr);
      LoopFacts(states, j - 1, t, pr);
      RunFollows(states, j - 1);
      LoopStep(states[j - 1], states[j], t, pr);
    }
  }

  lemma RunFollows(states: seq<State>, k: nat)
    requires Run(states) && k + 1 < |states|
    ensures Follows(states[k], states[k + 1])
  {
  }

  // What a step does to the place of a thread that stays in the loop.
  lemma LoopStep(s: State, s': State, t: nat, pr: Promotion)
    requires Follows(s, s') && InLoop(s, t, pr) && InLoop(s', t, pr) && pr.right < |s.tree.nodes|
    ensures s'.pcs[t] == s.pcs[t] ||
      (s.pcs[t].RehomeChild? && s'.pcs[t] == Rehome(pr, s.pcs[t].next + 1)) ||
      (s.pcs[t].Rehome? && s.pcs[t].next < |s.tree.nodes[pr.right].children| &&
        s'.pcs[t] == RehomeChild(pr, s.pcs[t].next, s.tree.nodes[pr.right].children[s.pcs[t].next]))
  {
  }
}
