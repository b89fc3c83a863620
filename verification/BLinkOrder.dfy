/** The order of separators. A split's right half is spliced in right behind its left half, by
    identity. Two splits of one child may reach the parent in the order opposite to the one
    they happened in; then the separators of the parent go out of order, which the class
    comment "always sorted" denies and the descent tolerates. Here is exactly when. */
module BLinkOrder {
  import opened Basics
  import opened TreeKeys
  import opened BLinkTree
  import opened BLinkThreads
  import opened BLinkInvariant
  import opened BLinkSteps
  import opened BLinkTheorems

  // ----- where nodes come from -----

  // A right half was put right behind its origin: what was there before lies beyond it.
  ghost predicate OriginOK(t: Tree, y: NodeId)
    requires y < |t.nodes|
  {
    t.nodes[y].origin.Some? ==>
      var c := t.nodes[y].origin.value;
      c < y && Left(t, c, y) && forall z: NodeId :: z < y && Left(t, c, z) ==> Left(t, y, z)
  }

  ghost predicate Origins(t: Tree) {
    forall y: NodeId :: y < |t.nodes| ==> OriginOK(t, y)
  }

  // The next child is older, or was split off this one, or belongs to its left.
  ghost predicate NextOK(t: Tree, c: NodeId, x: NodeId) {
    c < |t.nodes| && x < |t.nodes| && (x < c || t.nodes[x].origin == Some(c) || Left(t, x, c))
  }

  ghost predicate Neighbours(t: Tree) {
    forall n: NodeId, i: nat :: n < |t.nodes| && i + 1 < |t.nodes[n].children| ==>
      NextOK(t, t.nodes[n].children[i], t.nodes[n].children[i + 1])
  }

  // The promotion that a thread carries.
  function Carried(pc: PC): Option<Promotion> {
    match pc
    case WantParent(pr, _, _) => Some(pr)
    case AtParent(pr, _) => Some(pr)
    case Rehome(pr, _) => Some(pr)
    case RehomeChild(pr, _, _) => Some(pr)
    case WantRootCheck(pr) => Some(pr)
    case RootWantGrow(pr) => Some(pr)
    case RootGrow(pr) => Some(pr)
    case WantReread(pr) => Some(pr)
    case _ => None
  }

  ghost predicate FromChild(t: Tree, pr: Promotion) {
    pr.right < |t.nodes| && t.nodes[pr.right].origin == Some(pr.child)
  }

  ghost predicate CarriedOK(s: State) {
    forall t: nat :: t < |s.pcs| && Carried(s.pcs[t]).Some? ==> FromChild(s.tree, Carried(s.pcs[t]).value)
  }

  ghost predicate OrderInv(s: State) {
    Inv(s) && Origins(s.tree) && Neighbours(s.tree) && CarriedOK(s)
  }

  // ----- every step keeps it -----

  ghost predicate SameOrigins(t: Tree, t': Tree) {
    |t.nodes| <= |t'.nodes| && forall n :: 0 <= n < |t.nodes| ==> t'.nodes[n].origin == t.nodes[n].origin
  }

  // New nodes are put right behind their origin, or stand alone on a new level.
  ghost predicate NewOK(t: Tree, t': Tree) {
    forall y: NodeId :: |t.nodes| <= y < |t'.nodes| ==> OriginOK(t', y)
  }

  ghost predicate ListsOK(t: Tree, t': Tree) {
    forall n: NodeId, i: nat :: n < |t'.nodes| && i + 1 < |t'.nodes[n].children| ==>
      NextOK(t', t'.nodes[n].children[i], t'.nodes[n].children[i + 1])
  }

  lemma OriginsStable(t: Tree, t': Tree)
    requires Evolves(t, t') && SameOrigins(t, t') && Origins(t) && NewOK(t, t')
    ensures Origins(t')
  {
    forall y: NodeId | y < |t'.nodes| ensures OriginOK(t', y) {
      if y < |t.nodes| {
        assert OriginOK(t, y);
        forall z: NodeId | t.nodes[y].origin.Some? && z < y && Left(t', t.nodes[y].origin.value, z)
          ensures Left(t', y, z)
        {
          LeftStable(t, t', t.nodes[y].origin.value, z);
          LeftStable(t, t', y, z);
        }
      }
    }
  }

  lemma NextStable(t: Tree, t': Tree, c: NodeId, x: NodeId)
    requires Evolves(t, t') && SameOrigins(t, t') && NextOK(t, c, x)
    ensures NextOK(t', c, x)
  {
    LeftStable(t, t', x, c);
  }

  // A list that is part of an older list.
  lemma PartListOK(t: Tree, t': Tree, n: NodeId, n': NodeId, from: nat)
    requires Evolves(t, t') && SameOrigins(t, t') && Neighbours(t) && n < |t.nodes| && n' < |t'.nodes|
    requires from + |t'.nodes[n'].children| <= |t.nodes[n].children|
    requires forall i :: 0 <= i < |t'.nodes[n'].children| ==>
      t'.nodes[n'].children[i] == t.nodes[n].children[from + i]
    ensures forall i: nat :: i + 1 < |t'.nodes[n'].children| ==>
      NextOK(t', t'.nodes[n'].children[i], t'.nodes[n'].children[i + 1])
  {
    forall i: nat | i + 1 < |t'.nodes[n'].children|
      ensures NextOK(t', t'.nodes[n'].children[i], t'.nodes[n'].children[i + 1])
    {
      assert NextOK(t, t.nodes[n].children[from + i], t.nodes[n].children[(from + i) + 1]);
      NextStable(t, t', t.nodes[n].children[from + i], t.nodes[n].children[from + i + 1]);
    }
  }

  // A step that touches no list.
  lemma SameListsOK(t: Tree, t': Tree)
    requires Evolves(t, t') && SameOrigins(t, t') && Neighbours(t)
    requires forall n :: 0 <= n < |t.nodes| ==> t'.nodes[n].children == t.nodes[n].children
    requires forall n :: |t.nodes| <= n < |t'.nodes| ==> |t'.nodes[n].children| <= 1
    ensures Neighbours(t')
  {
    forall n: NodeId, i: nat | n < |t'.nodes| && i + 1 < |t'.nodes[n].children|
      ensures NextOK(t', t'.nodes[n].children[i], t'.nodes[n].children[i + 1])
    {
      PartListOK(t, t', n, n, 0);
    }
  }

  /** The heart of it. When r, split off c, is spliced in behind c, the next child x lies to
      its left exactly if x is younger than r or lies to the left of c. */
  lemma NextOfRight(t: Tree, c: NodeId, r: NodeId, x: NodeId)
    requires Origins(t) && NextOK(t, c, x) && r < |t.nodes| && t.nodes[r].origin == Some(c)
    requires Chains(t) && x != r && x != c
    ensures Left(t, x, r) <==> x > r || Left(t, x, c)
    ensures Left(t, c, x) && x < r ==> Left(t, r, x)
    ensures NextOK(t, r, x)
  {
    assert OriginOK(t, r) && OriginOK(t, x);
    if Left(t, x, r) && !Left(t, x, c) { assert AtOrLeft(t, c, x); }
  }

  // ----- one lemma per kind of step -----

  ghost predicate Ordered(t: Tree, t': Tree, pc': PC) {
    SameOrigins(t, t') && NewOK(t, t') && Neighbours(t') && (Carried(pc').Some? ==> FromChild(t', Carried(pc').value))
  }

  lemma SplitOriginOK(t: Tree, t': Tree, n: NodeId, sep: Key)
    requires SplitOutline(t, t', n, sep) && Links(t) && Chains(t) && Evolves(t, t')
    requires t'.nodes[|t.nodes|].origin == Some(n)
    ensures NewOK(t, t')
  {
    var y := |t.nodes|;
    SplitPlace(t, t', n, sep, n);
    assert AtOrLeft(t, n, n);
    forall z: NodeId | z < y && Left(t', n, z) ensures Left(t', y, z) {
      SplitPlace(t, t', n, sep, z);
      LeftStable(t, t', n, z);
    }
  }

  lemma LeafSplitOrder(t: Tree, n: NodeId)
    requires TreeOK(t) && Neighbours(t) && n < |t.nodes| && t.nodes[n].leaf && |t.nodes[n].keys| > 0
    ensures var t' := SplitLeaf(t, n); SameOrigins(t, t') && NewOK(t, t') && Neighbours(t')
  {
    hide LeafContents, LeafOrder, Located, RootOK, Hints, Evolves, Left;
    var sep := t.nodes[n].keys[LeafMid(t.nodes[n]) - 1];
    SplitLeafShape(t, n);
    SplitLeafEvolves(t, n);
    SplitOriginOK(t, SplitLeaf(t, n), n, sep);
    SameListsOK(t, SplitLeaf(t, n));
  }

  lemma InnerSplitOrder(t: Tree, n: NodeId)
    requires TreeOK(t) && Neighbours(t) && n < |t.nodes| && !t.nodes[n].leaf && |t.nodes[n].keys| > 0
    ensures var t' := SplitInner(t, n); SameOrigins(t, t') && NewOK(t, t') && Neighbours(t')
  {
    hide LeafContents, LeafOrder, Located, RootOK, Hints, Evolves, Left, NextOK;
    var mid, t' := InnerMid(t.nodes[n]), SplitInner(t, n);
    SplitInnerShape(t, n);
    SplitInnerEvolves(t, n);
    SplitOriginOK(t, t', n, t.nodes[n].keys[mid]);
    forall m: NodeId, i: nat | m < |t'.nodes| && i + 1 < |t'.nodes[m].children|
      ensures NextOK(t', t'.nodes[m].children[i], t'.nodes[m].children[i + 1])
    {
      if m == |t.nodes| { PartListOK(t, t', n, m, mid + 1); } else { PartListOK(t, t', m, m, 0); }
    }
  }

  // The splice makes two new pairs of neighbours.
  lemma SpliceOrder(t: Tree, n: NodeId, ci: nat, pr: Promotion)
    requires TreeOK(t) && Origins(t) && Neighbours(t) && PendingOK(t, pr) && FromChild(t, pr)
    requires n < |t.nodes| && !t.nodes[n].leaf && ci < |t.nodes[n].children| && t.nodes[n].children[ci] == pr.child
    ensures var t' := Splice(t, n, ci, pr.sep, pr.right); SameOrigins(t, t') && NewOK(t, t') && Neighbours(t')
  {
    hide LeafContents, LeafOrder, Located, RootOK, Hints, NextOK;
    var list, t' := t.nodes[n].children, Splice(t, n, ci, pr.sep, pr.right);
    SpliceKeeps(t, n, ci, pr.child, pr.sep, pr.right);
    forall m: NodeId, i: nat | m < |t'.nodes| && i + 1 < |t'.nodes[m].children|
      ensures NextOK(t', t'.nodes[m].children[i], t'.nodes[m].children[i + 1])
    {
      if m != n {
        PartListOK(t, t', m, m, 0);
      } else {
        SplicePair(t, n, ci, pr, i);
      }
    }
  }

  lemma SplicePair(t: Tree, n: NodeId, ci: nat, pr: Promotion, i: nat)
    requires TreeOK(t) && Origins(t) && Neighbours(t) && PendingOK(t, pr) && FromChild(t, pr)
    requires n < |t.nodes| && !t.nodes[n].leaf && ci < |t.nodes[n].children| && t.nodes[n].children[ci] == pr.child
    requires var t' := Splice(t, n, ci, pr.sep, pr.right); Evolves(t, t') && i + 1 < |t'.nodes[n].children|
    ensures var t' := Splice(t, n, ci, pr.sep, pr.right);
      NextOK(t', t'.nodes[n].children[i], t'.nodes[n].children[i + 1])
  {
    hide Evolves, Left, NextOK;
    var list, t' := t.nodes[n].children, Splice(t, n, ci, pr.sep, pr.right);
    var list' := t'.nodes[n].children;
    assert list' == InsertAt(list, ci + 1, pr.right);
    if i == ci {
      NewPair(t', pr);
    } else if i == ci + 1 {
      SpliceNext(t, n, ci, pr);
      NextStable(t, t', pr.right, list[ci + 1]);
    } else {
      var k := if i < ci then i else i - 1;
      assert list'[i] == list[k] && list'[i + 1] == list[k + 1];
      assert NextOK(t, list[k], list[k + 1]);
      NextStable(t, t', list[k], list[k + 1]);
    }
  }

  lemma NewPair(t: Tree, pr: Promotion)
    requires FromChild(t, pr) && pr.child < |t.nodes|
    ensures NextOK(t, pr.child, pr.right)
  {
  }

  // What stands behind the child now, against what is about to be put there.
  lemma SpliceNext(t: Tree, n: NodeId, ci: nat, pr: Promotion)
    requires TreeOK(t) && Origins(t) && Neighbours(t) && PendingOK(t, pr) && FromChild(t, pr)
    requires n < |t.nodes| && !t.nodes[n].leaf && ci + 1 < |t.nodes[n].children|
    requires t.nodes[n].children[ci] == pr.child
    ensures var x := t.nodes[n].children[ci + 1];
      && x < |t.nodes| && x != pr.right && x != pr.child && NextOK(t, pr.right, x)
      && (Left(t, x, pr.right) <==> x > pr.right || Left(t, x, pr.child))
      && (Left(t, pr.child, x) && x < pr.right ==> Left(t, pr.right, x))
  {
    hide LeafContents, LeafOrder, Located, RootOK, Hints, Left;
    var x := t.nodes[n].children[ci + 1];
    assert RouteOK(t, n, ci + 1) && RouteOK(t, n, ci);
    assert NextOK(t, t.nodes[n].children[ci], t.nodes[n].children[ci + 1]);
    NextOfRight(t, pr.child, pr.right, x);
  }

  lemma RootGrowOrder(t: Tree, pr: Promotion)
    requires TreeOK(t) && Neighbours(t) && PendingOK(t, pr) && FromChild(t, pr) && t.root == pr.child
    ensures var t' := GrowRoot(t, pr.child, pr.sep, pr.right); SameOrigins(t, t') && NewOK(t, t') && Neighbours(t')
  {
    hide LeafContents, LeafOrder, Located, Hints, Left, NextOK;
    var t' := GrowRoot(t, pr.child, pr.sep, pr.right);
    GrowRootEvolves(t, pr.sep, pr.right);
    NewPair(t', pr);
    forall m: NodeId, i: nat | m < |t'.nodes| && i + 1 < |t'.nodes[m].children|
      ensures NextOK(t', t'.nodes[m].children[i], t'.nodes[m].children[i + 1])
    {
      if m < |t.nodes| { PartListOK(t, t', m, m, 0); }
    }
  }

  // A step that makes no node and touches no list.
  lemma PlainOrder(t: Tree, t': Tree)
    requires Evolves(t, t') && Neighbours(t) && |t'.nodes| == |t.nodes|
    requires forall n :: 0 <= n < |t.nodes| ==>
      t'.nodes[n].children == t.nodes[n].children && t'.nodes[n].origin == t.nodes[n].origin
    ensures SameOrigins(t, t') && NewOK(t, t') && Neighbours(t')
  {
    SameListsOK(t, t');
  }

  lemma OrderStep(capacity: nat, t: Tree, pc: PC, call: Call)
    requires TreeOK(t) && PcOK(capacity, t, pc) && Fits(capacity, t, pc) && capacity >= 1
    requires Origins(t) && Neighbours(t) && (Carried(pc).Some? ==> FromChild(t, Carried(pc).value))
    ensures var (t', pc') := StepThread(capacity, t, pc, call); Ordered(t, t', pc')
  {
    hide TreeOK, PcOK, Fits, GoodStep, Origins, Neighbours, FromChild, Ordered, StepAt, StepLeafGrow, StepAtParent,
      StepInnerGrow, StepRootGrow, StepSpliced, StepRehomeChild, StepRootHints, StepRehome, StepReread;
    ThreadStep(capacity, t, pc, call);
    var (t', pc') := StepThread(capacity, t, pc, call);
    GoodEvolves(capacity, t, pc, t', pc');
    match pc
    case LeafGrow(n) => LeafGrowOrder(capacity, t, n);
    case InnerGrow(n) => InnerGrowOrder(capacity, t, n);
    case AtParent(pr, n) => AtParentOrder(capacity, t, pr, n);
    case RootGrow(pr) => RootGrowthOrder(capacity, t, pr);
    case _ => QuietOrder(capacity, t, pc, call);
  }

  lemma LeafGrowOrder(capacity: nat, t: Tree, n: NodeId)
    requires TreeOK(t) && PcOK(capacity, t, LeafGrow(n)) && capacity >= 1 && Neighbours(t)
    ensures var (t', pc') := StepLeafGrow(t, n); Ordered(t, t', pc')
  {
    hide Links, Chains, Routing, Parents, LeafContents, LeafOrder, Located, RootOK, Hints, Neighbours, OriginOK;
    LeafSplitOrder(t, n);
  }

  lemma InnerGrowOrder(capacity: nat, t: Tree, n: NodeId)
    requires TreeOK(t) && PcOK(capacity, t, InnerGrow(n)) && capacity >= 1 && Neighbours(t)
    ensures var (t', pc') := StepInnerGrow(t, n); Ordered(t, t', pc')
  {
    hide Links, Chains, Routing, Parents, LeafContents, LeafOrder, Located, RootOK, Hints, Neighbours, OriginOK;
    InnerSplitOrder(t, n);
  }

  lemma AtParentOrder(capacity: nat, t: Tree, pr: Promotion, n: NodeId)
    requires TreeOK(t) && PcOK(capacity, t, AtParent(pr, n)) && Origins(t) && Neighbours(t) && FromChild(t, pr)
    ensures var (t', pc') := StepAtParent(t, pr, n); Ordered(t, t', pc')
  {
    hide Links, Chains, Parents, LeafContents, LeafOrder, Located, RootOK, Hints, Neighbours, Origins, OriginOK;
    HolderAt(t, n, pr.child);
    if pr.child in t.nodes[n].children {
      SpliceOrder(t, n, IndexOf(t.nodes[n].children, pr.child), pr);
    }
  }

  lemma RootGrowthOrder(capacity: nat, t: Tree, pr: Promotion)
    requires TreeOK(t) && PcOK(capacity, t, RootGrow(pr)) && Neighbours(t) && FromChild(t, pr)
    ensures var (t', pc') := StepRootGrow(t, pr); Ordered(t, t', pc')
  {
    hide Links, Chains, Parents, LeafContents, LeafOrder, Located, RootOK, Hints, Neighbours, OriginOK;
    RootGrowOrder(t, pr);
  }

  // Every other step makes no node, touches no list, and promotes nothing new.
  lemma QuietOrder(capacity: nat, t: Tree, pc: PC, call: Call)
    requires Neighbours(t) && (Carried(pc).Some? ==> FromChild(t, Carried(pc).value))
    requires !pc.LeafGrow? && !pc.InnerGrow? && !pc.AtParent? && !pc.RootGrow?
    requires Evolves(t, StepThread(capacity, t, pc, call).0)
    ensures var (t', pc') := StepThread(capacity, t, pc, call); Ordered(t, t', pc')
  {
    hide Neighbours, Evolves, Batch, SameOrigins, NewOK;
    QuietNodes(capacity, t, pc, call);
    PlainOrder(t, StepThread(capacity, t, pc, call).0);
  }

  lemma QuietNodes(capacity: nat, t: Tree, pc: PC, call: Call)
    requires !pc.LeafGrow? && !pc.InnerGrow? && !pc.AtParent? && !pc.RootGrow?
    requires Carried(pc).Some? ==> FromChild(t, Carried(pc).value)
    ensures var (t', pc') := StepThread(capacity, t, pc, call);
      && SameLists(t, t') && (Carried(pc').Some? ==> FromChild(t', Carried(pc').value))
  {
    hide StepAt, FromChild;
    var (t', pc') := StepThread(capacity, t, pc, call);
    if pc.At? { AtKeepsLists(capacity, t, pc.op, pc.node); }
    assert Carried(pc').Some? ==> Carried(pc') == Carried(pc);
    if Carried(pc').Some? { StillFromChild(t, t', Carried(pc').value); }
  }

  ghost predicate SameLists(t: Tree, t': Tree) {
    && |t'.nodes| == |t.nodes|
    && forall n :: 0 <= n < |t.nodes| ==>
         t'.nodes[n].children == t.nodes[n].children && t'.nodes[n].origin == t.nodes[n].origin
  }

  lemma AtKeepsLists(capacity: nat, t: Tree, op: Op, n: NodeId)
    ensures var (t', pc') := StepAt(capacity, t, op, n); SameLists(t, t') && Carried(pc').None?
  {
    hide Batch;
  }

  lemma StillFromChild(t: Tree, t': Tree, pr: Promotion)
    requires SameLists(t, t') && FromChild(t, pr)
    ensures FromChild(t', pr)
  {
  }

  lemma StepKeepsOrderInv(s: State, t: nat, call: Call)
    requires OrderInv(s) && Ready(s, t)
    ensures OrderInv(Step(s, t, call))
  {
    hide Inv, TreeOK, PcOK, Fits, Origins, Neighbours, StepThread, Evolves, GoodStep;
    var s' := Step(s, t, call);
    StepKeepsInv(s, t, call);
    InvParts(s, t, t);
    OrderStep(s.capacity, s.tree, s.pcs[t], call);
    ThreadStep(s.capacity, s.tree, s.pcs[t], call);
    GoodEvolves(s.capacity, s.tree, s.pcs[t], s'.tree, s'.pcs[t]);
    OriginsStable(s.tree, s'.tree);
    forall u: nat | u < |s'.pcs| && Carried(s'.pcs[u]).Some? ensures FromChild(s'.tree, Carried(s'.pcs[u]).value) {
      if u != t { assert FromChild(s.tree, Carried(s.pcs[u]).value); }
    }
  }

  lemma {:induction false} RunKeepsOrderInv(states: seq<State>, i: nat)
    requires Run(states) && states[0].capacity >= 1 && i < |states|
    ensures OrderInv(states[i])
  {
    hide Inv, Step, Ready, Origins, Neighbours;
    if i == 0 {
      RunKeepsInv(states, 0);
      StartOrder(states[0]);
    } else {
      RunKeepsOrderInv(states, i - 1);
      assert Follows(states[i - 1], states[(i - 1) + 1]);
      var t: nat, call: Call :| Ready(states[i - 1], t) && states[i] == Step(states[i - 1], t, call);
      StepKeepsOrderInv(states[i - 1], t, call);
    }
  }

  lemma StartOrder(s: State)
    requires Init(s)
    ensures Origins(s.tree) && Neighbours(s.tree) && CarriedOK(s)
  {
  }

  // ----- lists in the order of their level -----

  ghost predicate InOrder(t: Tree, n: NodeId)
    requires n < |t.nodes|
  {
    forall i: nat :: i + 1 < |t.nodes[n].children| ==> Left(t, t.nodes[n].children[i], t.nodes[n].children[i + 1])
  }

  ghost predicate AllInOrder(t: Tree) {
    forall n: NodeId :: n < |t.nodes| ==> InOrder(t, n)
  }

  /** A late splice: what stands behind the child now is younger than what is spliced in. Both
      numbers are at hand under the parent's mutex. */
  predicate Late(t: Tree, pc: PC) {
    pc.AtParent? && pc.node < |t.nodes| && pc.pr.child in t.nodes[pc.node].children &&
    var list := t.nodes[pc.node].children;
    var ci := IndexOf(list, pc.pr.child);
    ci + 1 < |list| && list[ci + 1] > pc.pr.right
  }

  lemma OrderKept(t: Tree, t': Tree, n: NodeId, n': NodeId, from: nat)
    requires Evolves(t, t') && n < |t.nodes| && n' < |t'.nodes| && InOrder(t, n)
    requires from + |t'.nodes[n'].children| <= |t.nodes[n].children|
    requires forall i :: 0 <= i < |t'.nodes[n'].children| ==>
      t'.nodes[n'].children[i] == t.nodes[n].children[from + i]
    ensures InOrder(t', n')
  {
    forall i: nat | i + 1 < |t'.nodes[n'].children|
      ensures Left(t', t'.nodes[n'].children[i], t'.nodes[n'].children[i + 1])
    {
      assert Left(t, t.nodes[n].children[from + i], t.nodes[n].children[(from + i) + 1]);
      LeftStable(t, t', t.nodes[n].children[from + i], t.nodes[n].children[from + i + 1]);
    }
  }

  lemma SpliceInOrderIff(t: Tree, n: NodeId, ci: nat, pr: Promotion)
    requires TreeOK(t) && Origins(t) && Neighbours(t) && PendingOK(t, pr) && FromChild(t, pr) && AllInOrder(t)
    requires n < |t.nodes| && !t.nodes[n].leaf && ci < |t.nodes[n].children| && t.nodes[n].children[ci] == pr.child
    ensures var list := t.nodes[n].children;
      AllInOrder(Splice(t, n, ci, pr.sep, pr.right)) <==> (ci + 1 < |list| ==> list[ci + 1] < pr.right)
  {
    hide LeafContents, LeafOrder, Located, RootOK, Hints, Evolves, NextOK, OriginOK, Left;
    var list, t' := t.nodes[n].children, Splice(t, n, ci, pr.sep, pr.right);
    var list' := t'.nodes[n].children;
    SpliceKeeps(t, n, ci, pr.child, pr.sep, pr.right);
    RightOfChild(t, pr);
    LeftStable(t, t', pr.child, pr.right);
    assert list' == InsertAt(list, ci + 1, pr.right);
    if ci + 1 < |list| {
      var x := list[ci + 1];
      assert list[ci] == pr.child && InOrder(t, n);
      assert Left(t, pr.child, x);
      SpliceNext(t, n, ci, pr);
      LeftStable(t, t', pr.right, x);
      OneWay(t, x, pr.right);
      assert list'[(ci + 1) + 1] == x && list'[ci + 1] == pr.right;
    }
    if ci + 1 < |list| ==> list[ci + 1] < pr.right {
      forall m: NodeId | m < |t'.nodes| ensures InOrder(t', m) {
        if m != n { OrderKept(t, t', m, m, 0); } else { SplicedInOrder(t, t', n, ci, pr.right); }
      }
    } else {
      assert !Left(t', list'[ci + 1], list'[(ci + 1) + 1]);
      assert !InOrder(t', n);
    }
  }

  lemma RightOfChild(t: Tree, pr: Promotion)
    requires Origins(t) && FromChild(t, pr)
    ensures Left(t, pr.child, pr.right)
  {
    assert OriginOK(t, pr.right);
  }

  lemma OneWay(t: Tree, a: NodeId, b: NodeId)
    ensures Left(t, a, b) ==> !Left(t, b, a)
  {
  }

  lemma SplicedInOrder(t: Tree, t': Tree, n: NodeId, ci: nat, r: NodeId)
    requires Evolves(t, t') && n < |t.nodes| && InOrder(t, n) && ci < |t.nodes[n].children|
    requires n < |t'.nodes| && t'.nodes[n].children == InsertAt(t.nodes[n].children, ci + 1, r)
    requires Left(t', t.nodes[n].children[ci], r)
    requires ci + 1 < |t.nodes[n].children| ==> Left(t', r, t.nodes[n].children[ci + 1])
    ensures InOrder(t', n)
  {
    hide Evolves, Left;
    var list, list' := t.nodes[n].children, t'.nodes[n].children;
    forall i: nat | i + 1 < |list'| ensures Left(t', list'[i], list'[i + 1]) {
      if i != ci && i != ci + 1 {
        var k := if i < ci then i else i - 1;
        assert list'[i] == list[k] && list'[i + 1] == list[k + 1];
        assert Left(t, list[k], list[k + 1]);
        LeftStays(t, t', list[k], list[k + 1]);
      }
    }
  }

  lemma LeftStays(t: Tree, t': Tree, a: NodeId, b: NodeId)
    requires Evolves(t, t') && Left(t, a, b)
    ensures Left(t', a, b)
  {
  }

  // One step keeps every list in order if and only if it is no late splice.
  lemma StepInOrderIff(capacity: nat, t: Tree, pc: PC, call: Call)
    requires TreeOK(t) && PcOK(capacity, t, pc) && Fits(capacity, t, pc) && capacity >= 1
    requires Origins(t) && Neighbours(t) && (Carried(pc).Some? ==> FromChild(t, Carried(pc).value))
    requires AllInOrder(t)
    ensures AllInOrder(StepThread(capacity, t, pc, call).0) <==> !Late(t, pc)
  {
    hide TreeOK, PcOK, Fits, GoodStep, Origins, Neighbours, FromChild, StepAt, StepLeafGrow, StepAtParent,
      StepInnerGrow, StepRootGrow, StepSpliced, StepRehomeChild, StepRootHints, StepRehome, StepReread, AllInOrder,
      Late;
    ThreadStep(capacity, t, pc, call);
    var (t', pc') := StepThread(capacity, t, pc, call);
    GoodEvolves(capacity, t, pc, t', pc');
    NotLate(t, pc);
    match pc
    case AtParent(pr, n) => AtParentInOrder(capacity, t, pr, n);
    case InnerGrow(n) => InnerGrowInOrder(capacity, t, n);
    case RootGrow(pr) => RootGrowInOrder(capacity, t, pr);
    case _ => QuietInOrder(capacity, t, pc, call);
  }

  lemma NotLate(t: Tree, pc: PC)
    ensures !pc.AtParent? ==> !Late(t, pc)
  {
  }

  lemma AtParentInOrder(capacity: nat, t: Tree, pr: Promotion, n: NodeId)
    requires TreeOK(t) && PcOK(capacity, t, AtParent(pr, n)) && Origins(t) && Neighbours(t) && FromChild(t, pr)
    requires AllInOrder(t)
    ensures AllInOrder(StepAtParent(t, pr, n).0) <==> !Late(t, AtParent(pr, n))
  {
    hide Links, Chains, Parents, LeafContents, LeafOrder, Located, RootOK, Hints, Neighbours, Origins, AllInOrder;
    HolderAt(t, n, pr.child);
    if pr.child in t.nodes[n].children {
      var ci := IndexOf(t.nodes[n].children, pr.child);
      SpliceInOrderIff(t, n, ci, pr);
      if ci + 1 < |t.nodes[n].children| { SpliceNext(t, n, ci, pr); }
    }
  }

  lemma InnerGrowInOrder(capacity: nat, t: Tree, n: NodeId)
    requires TreeOK(t) && PcOK(capacity, t, InnerGrow(n)) && capacity >= 1 && AllInOrder(t)
    ensures AllInOrder(StepInnerGrow(t, n).0)
  {
    hide Links, Chains, Routing, Parents, LeafContents, LeafOrder, Located, RootOK, Hints, InOrder, Evolves;
    var mid, t' := InnerMid(t.nodes[n]), SplitInner(t, n);
    SplitInnerEvolves(t, n);
    forall m: NodeId | m < |t'.nodes| ensures InOrder(t', m) {
      if m == |t.nodes| { OrderKept(t, t', n, m, mid + 1); } else { OrderKept(t, t', m, m, 0); }
    }
  }

  lemma RootGrowInOrder(capacity: nat, t: Tree, pr: Promotion)
    requires TreeOK(t) && PcOK(capacity, t, RootGrow(pr)) && Origins(t) && FromChild(t, pr) && AllInOrder(t)
    ensures AllInOrder(StepRootGrow(t, pr).0)
  {
    hide Links, Chains, Routing, Parents, LeafContents, LeafOrder, Located, Hints, InOrder, Evolves, Left;
    var t' := GrowRoot(t, pr.child, pr.sep, pr.right);
    GrowRootEvolves(t, pr.sep, pr.right);
    RightOfChild(t, pr);
    LeftStays(t, t', pr.child, pr.right);
    forall m: NodeId | m < |t'.nodes| ensures InOrder(t', m) {
      if m < |t.nodes| { OrderKept(t, t', m, m, 0); } else { PairInOrder(t', m, pr.child, pr.right); }
    }
  }

  lemma PairInOrder(t: Tree, m: NodeId, c: NodeId, r: NodeId)
    requires m < |t.nodes| && t.nodes[m].children == [c, r] && Left(t, c, r)
    ensures InOrder(t, m)
  {
  }

  lemma QuietInOrder(capacity: nat, t: Tree, pc: PC, call: Call)
    requires AllInOrder(t) && Evolves(t, StepThread(capacity, t, pc, call).0)
    requires !pc.InnerGrow? && !pc.AtParent? && !pc.RootGrow?
    ensures AllInOrder(StepThread(capacity, t, pc, call).0)
  {
    hide InOrder, Evolves, Batch;
    var t' := StepThread(capacity, t, pc, call).0;
    QuietLists(capacity, t, pc, call);
    forall m: NodeId | m < |t'.nodes| ensures InOrder(t', m) {
      if m < |t.nodes| { OrderKept(t, t', m, m, 0); } else { Childless(t', m); }
    }
  }

  lemma QuietLists(capacity: nat, t: Tree, pc: PC, call: Call)
    requires !pc.InnerGrow? && !pc.AtParent? && !pc.RootGrow?
    ensures var t' := StepThread(capacity, t, pc, call).0;
      && |t.nodes| <= |t'.nodes|
      && (forall m :: 0 <= m < |t.nodes| ==> t'.nodes[m].children == t.nodes[m].children)
      && forall m :: |t.nodes| <= m < |t'.nodes| ==> t'.nodes[m].children == []
  {
    hide Batch;
  }

  lemma Childless(t: Tree, m: NodeId)
    requires m < |t.nodes| && t.nodes[m].children == []
    ensures InOrder(t, m)
  {
  }

  // ----- over runs -----

  ghost predicate LateStep(s: State, s': State) {
    exists u: nat, call: Call :: Ready(s, u) && s' == Step(s, u, call) && Late(s.tree, s.pcs[u])
  }

  lemma RunStepInOrder(states: seq<State>, k: nat)
    requires Run(states) && states[0].capacity >= 1 && k + 1 < |states| && AllInOrder(states[k].tree)
    ensures AllInOrder(states[k + 1].tree) <==> !LateStep(states[k], states[k + 1])
  {
    hide Inv, TreeOK, PcOK, Fits, Origins, Neighbours, AllInOrder, Late, StepThread, FromChild;
    RunKeepsOrderInv(states, k);
    var s, s' := states[k], states[k + 1];
    assert Follows(s, s');
    forall u: nat, call: Call | Ready(s, u) && s' == Step(s, u, call)
      ensures AllInOrder(s'.tree) <==> !Late(s.tree, s.pcs[u])
    {
      InvParts(s, u, u);
      StepInOrderIff(s.capacity, s.tree, s.pcs[u], call);
    }
  }

  /** Through a whole run the children of every node stand in the order of their level if and
      only if no splice in it was late. */
  lemma {:induction false} InOrderIff(states: seq<State>, j: nat)
    requires Run(states) && states[0].capacity >= 1 && j < |states|
    ensures (forall k :: 0 <= k <= j ==> AllInOrder(states[k].tree)) <==>
      (forall k :: 0 <= k < j ==> !LateStep(states[k], states[k + 1]))
  {
    hide Run, AllInOrder, LateStep;
    if j == 0 {
      StartInOrder(states);
    } else {
      InOrderIff(states, j - 1);
      if AllInOrder(states[j - 1].tree) { RunStepInOrder(states, j - 1); }
      assert states[(j - 1) + 1] == states[j];
    }
  }

  lemma StartInOrder(states: seq<State>)
    requires Run(states)
    ensures AllInOrder(states[0].tree)
  {
  }

  // ----- the separators above the leaves -----

  // Putting one key among sorted ones.
  lemma SpliceSortedIff(t: Tree, n: NodeId, ci: nat, sep: Key, right: NodeId)
    requires n < |t.nodes| && NodeShape(t.nodes[n]) && !t.nodes[n].leaf && ci < |t.nodes[n].children|
    requires right < |t.par| && Sorted(t.nodes[n].keys)
    ensures var keys := t.nodes[n].keys;
      Sorted(Splice(t, n, ci, sep, right).nodes[n].keys) <==>
        (ci > 0 ==> keys[ci - 1] <= sep) && (ci < |keys| ==> sep <= keys[ci])
  {
    var keys, keys' := t.nodes[n].keys, Splice(t, n, ci, sep, right).nodes[n].keys;
    assert keys' == InsertAt(keys, ci, sep);
    if (ci > 0 ==> keys[ci - 1] <= sep) && (ci < |keys| ==> sep <= keys[ci]) {
      forall i, j | 0 <= i <= j < |keys'| ensures keys'[i] <= keys'[j] {
        var i', j' := if i < ci then i else i - 1, if j < ci then j else j - 1;
        assert i != ci ==> keys'[i] == keys[i'];
        assert j != ci ==> keys'[j] == keys[j'];
        assert i < ci ==> keys[i] <= keys[ci - 1];
        assert j > ci ==> keys[ci] <= keys[j - 1];
      }
    } else {
      assert ci > 0 ==> keys'[ci - 1] == keys[ci - 1];
      assert ci < |keys| ==> keys'[ci + 1] == keys[ci];
      assert keys'[ci] == sep;
    }
  }

  lemma SeparatorsIff(t: Tree, n: NodeId, ci: nat, pr: Promotion)
    requires TreeOK(t) && Origins(t) && Neighbours(t) && PendingOK(t, pr) && FromChild(t, pr)
    requires n < |t.nodes| && !t.nodes[n].leaf && ci < |t.nodes[n].children| && t.nodes[n].children[ci] == pr.child
    requires t.nodes[pr.child].leaf && Sorted(t.nodes[n].keys)
    ensures var nd := t.nodes[n];
      && ci <= |nd.keys| && |nd.children| == |nd.keys| + 1
      && (Sorted(Splice(t, n, ci, pr.sep, pr.right).nodes[n].keys) <==>
           || ci == |nd.keys| || nd.keys[ci] == pr.sep
           || (nd.children[ci + 1] < pr.right && Left(t, pr.child, nd.children[ci + 1])))
  {
    hide Located, RootOK, Hints, Origins, Neighbours, Sorted, OriginOK, NextOK, FromChild;
    var nd := t.nodes[n];
    assert NodeShape(nd);
    SpliceSortedIff(t, n, ci, pr.sep, pr.right);
    assert RouteOK(t, n, ci);
    RightOfChild(t, pr);
    LeafLows(t, pr.child, pr.right);
    if ci < |nd.keys| {
      var x := nd.children[ci + 1];
      assert RouteOK(t, n, ci + 1);
      SpliceNext(t, n, ci, pr);
      assert AtOrLeft(t, x, pr.child) || AtOrLeft(t, pr.child, x);
      if nd.children[ci + 1] < pr.right && Left(t, pr.child, x) {
        LeafLows(t, pr.right, x);
      } else {
        assert Left(t, x, pr.right);
        LeafLows(t, x, pr.right);
      }
    }
  }

  // Leaves begin in the order of their level.
  lemma LeafLows(t: Tree, a: NodeId, b: NodeId)
    requires LeafContents(t) && LeafOrder(t) && Left(t, a, b) && t.nodes[a].leaf
    ensures t.nodes[b].low.Some? && LowLe(t.nodes[a].low, t.nodes[b].low.value)
  {
    assert LeafBounds(t.nodes[a]);
  }

  /** Over all runs: a thread is about to splice beside a leaf, and the separators of the parent
      are sorted. They stay sorted if and only if nothing stands behind the child, or what
      stands there has the same separator, or it is older than the new right half and on
      the right of the child. */
  lemma SortedIff(states: seq<State>, i: nat, t: nat, call: Call)
    requires Run(states) && states[0].capacity >= 1 && i < |states| && Ready(states[i], t)
    requires states[i].pcs[t].AtParent?
    requires var s, pc := states[i], states[i].pcs[t];
      && pc.node < |s.tree.nodes| && pc.pr.child in s.tree.nodes[pc.node].children
      && pc.pr.child < |s.tree.nodes| && s.tree.nodes[pc.pr.child].leaf && Sorted(s.tree.nodes[pc.node].keys)
    ensures var s, pc := states[i], states[i].pcs[t];
      var nd, nodes' := s.tree.nodes[pc.node], Step(s, t, call).tree.nodes;
      var ci := IndexOf(nd.children, pc.pr.child);
      && pc.node < |nodes'| && ci < |nd.children| == |nd.keys| + 1
      && (Sorted(nodes'[pc.node].keys) <==>
           || ci == |nd.keys| || nd.keys[ci] == pc.pr.sep
           || (nd.children[ci + 1] < pc.pr.right && Left(s.tree, pc.pr.child, nd.children[ci + 1])))
  {
    hide Inv, TreeOK, Fits, Origins, Neighbours, FromChild, Sorted, Left;
    RunKeepsOrderInv(states, i);
    var s, pc := states[i], states[i].pcs[t];
    InvParts(s, t, t);
    var ci := IndexOf(s.tree.nodes[pc.node].children, pc.pr.child);
    HolderAt(s.tree, pc.node, pc.pr.child);
    SeparatorsIff(s.tree, pc.node, ci, pc.pr);
    SpliceMade(s.capacity, s.tree, pc.pr, pc.node);
  }

  lemma SpliceMade(capacity: nat, t: Tree, pr: Promotion, n: NodeId)
    requires TreeOK(t) && PcOK(capacity, t, AtParent(pr, n)) && n < |t.nodes| && pr.child in t.nodes[n].children
    ensures pr.right < |t.par| && IndexOf(t.nodes[n].children, pr.child) <= |t.nodes[n].keys|
    ensures StepAtParent(t, pr, n).0 == Splice(t, n, IndexOf(t.nodes[n].children, pr.child), pr.sep, pr.right)
  {
    HolderAt(t, n, pr.child);
  }

  // ----- separators on every level -----

  // The separators of every inner node are sorted and lie within its bounds.
  ghost predicate InnerBounds(t: Tree) {
    forall n: NodeId :: n < |t.nodes| && !t.nodes[n].leaf ==> LeafBounds(t.nodes[n])
  }

  ghost predicate InnerOrder(t: Tree) {
    forall n: NodeId, m: NodeId :: Left(t, n, m) && !t.nodes[n].leaf ==>
      t.nodes[n].high.Some? && t.nodes[m].low.Some? && t.nodes[n].high.value <= t.nodes[m].low.value
  }

  ghost predicate WellOrdered(t: Tree) { AllInOrder(t) && InnerBounds(t) && InnerOrder(t) }

  /** A splice out of place: it is late, or nothing stands behind the child and the separator
      lies beyond the parent's high key. All of it is at hand under the parent's mutex. */
  predicate Misplaced(t: Tree, pc: PC) {
    pc.AtParent? && pc.node < |t.nodes| && pc.pr.child in t.nodes[pc.node].children &&
    var nd := t.nodes[pc.node];
    var ci := IndexOf(nd.children, pc.pr.child);
    if ci + 1 < |nd.children| then nd.children[ci + 1] > pc.pr.right
    else nd.high.Some? && nd.high.value < pc.pr.sep
  }

  lemma BetweenBounds(t: Tree, a: NodeId, b: NodeId)
    requires LeafContents(t) && LeafOrder(t) && InnerBounds(t) && InnerOrder(t) && Left(t, a, b)
    ensures t.nodes[b].low.Some? && LowLe(t.nodes[a].low, t.nodes[b].low.value)
  {
    assert LeafBounds(t.nodes[a]);
  }

  // Beside its child, and before the next, is where the separator belongs.
  lemma SepBetween(t: Tree, n: NodeId, ci: nat, pr: Promotion)
    requires TreeOK(t) && Origins(t) && Neighbours(t) && PendingOK(t, pr) && FromChild(t, pr) && WellOrdered(t)
    requires n < |t.nodes| && !t.nodes[n].leaf && ci < |t.nodes[n].children| && t.nodes[n].children[ci] == pr.child
    requires ci + 1 < |t.nodes[n].children| ==> t.nodes[n].children[ci + 1] < pr.right
    ensures var nd := t.nodes[n];
      && |nd.children| == |nd.keys| + 1 && LowLe(nd.low, pr.sep)
      && (ci > 0 ==> nd.keys[ci - 1] <= pr.sep) && (ci < |nd.keys| ==> pr.sep <= nd.keys[ci])
  {
    hide Located, RootOK, Hints, Origins, Neighbours, OriginOK, NextOK, FromChild, LeafOrder, InnerOrder, LeafContents,
      Left;
    var nd := t.nodes[n];
    assert NodeShape(nd) && LeafBounds(nd);
    assert RouteOK(t, n, ci);
    RightOfChild(t, pr);
    BetweenBounds(t, pr.child, pr.right);
    if ci < |nd.keys| {
      var x := nd.children[ci + 1];
      assert RouteOK(t, n, ci + 1);
      assert InOrder(t, n);
      assert Left(t, nd.children[ci], nd.children[ci + 1]);
      SpliceNext(t, n, ci, pr);
      BetweenBounds(t, pr.right, x);
    }
  }

  lemma BoundsInsert(nd: Node, ci: nat, sep: Key)
    requires LeafBounds(nd) && ci <= |nd.keys| && LowLe(nd.low, sep)
    requires (ci > 0 ==> nd.keys[ci - 1] <= sep) && (ci < |nd.keys| ==> sep <= nd.keys[ci])
    ensures forall children: seq<NodeId> ::
      LeafBounds(nd.(keys := InsertAt(nd.keys, ci, sep), children := children)) <==>
        (ci == |nd.keys| ==> HighGe(nd.high, sep))
  {
    var keys, keys' := nd.keys, InsertAt(nd.keys, ci, sep);
    forall i, j | 0 <= i <= j < |keys'| ensures keys'[i] <= keys'[j] {
      var i', j' := if i < ci then i else i - 1, if j < ci then j else j - 1;
      assert i != ci ==> keys'[i] == keys[i'];
      assert j != ci ==> keys'[j] == keys[j'];
      assert i < ci ==> keys[i] <= keys[ci - 1];
      assert j > ci ==> keys[ci] <= keys[j - 1];
    }
    InsertKeepsMembers(keys, ci, sep);
    assert keys'[ci] == sep;
    assert ci < |keys| ==> HighGe(nd.high, sep);
  }

  lemma SpliceWellOrderedIff(t: Tree, n: NodeId, ci: nat, pr: Promotion)
    requires TreeOK(t) && Origins(t) && Neighbours(t) && PendingOK(t, pr) && FromChild(t, pr) && WellOrdered(t)
    requires n < |t.nodes| && !t.nodes[n].leaf && ci < |t.nodes[n].children| && t.nodes[n].children[ci] == pr.child
    ensures var nd := t.nodes[n];
      WellOrdered(Splice(t, n, ci, pr.sep, pr.right)) <==>
        if ci + 1 < |nd.children| then nd.children[ci + 1] < pr.right else HighGe(nd.high, pr.sep)
  {
    hide TreeOK, Origins, Neighbours, FromChild, InOrder, LeafBounds, Left, Pending;
    SpliceFits(t, n, ci, pr);
    var nd, t' := t.nodes[n], Splice(t, n, ci, pr.sep, pr.right);
    SpliceInOrderIff(t, n, ci, pr);
    if ci + 1 < |nd.children| ==> nd.children[ci + 1] < pr.right {
      SepBetween(t, n, ci, pr);
      BoundsInsert(nd, ci, pr.sep);
      SplicedNodes(t, n, ci, pr);
      assert LeafBounds(t'.nodes[n]) <==> (ci == |nd.keys| ==> HighGe(nd.high, pr.sep));
      assert forall m: NodeId :: m < |t.nodes| && m != n && !t.nodes[m].leaf ==> LeafBounds(t'.nodes[m]);
      SameInnerOrder(t, t');
    }
  }

  lemma SpliceFits(t: Tree, n: NodeId, ci: nat, pr: Promotion)
    requires TreeOK(t) && PendingOK(t, pr) && n < |t.nodes| && !t.nodes[n].leaf && ci < |t.nodes[n].children|
    ensures |t.nodes[n].children| == |t.nodes[n].keys| + 1 && pr.right < |t.par|
  {
  }

  lemma SplicedNodes(t: Tree, n: NodeId, ci: nat, pr: Promotion)
    requires n < |t.nodes| && ci <= |t.nodes[n].keys| && ci < |t.nodes[n].children| && pr.right < |t.par|
    ensures var nd, t' := t.nodes[n], Splice(t, n, ci, pr.sep, pr.right);
      && |t'.nodes| == |t.nodes| && (forall m :: 0 <= m < |t.nodes| && m != n ==> t'.nodes[m] == t.nodes[m])
      && t'.nodes[n] == nd.(keys := InsertAt(nd.keys, ci, pr.sep), children := InsertAt(nd.children, ci + 1, pr.right))
      && SameBounds(t, t')
  {
  }

  ghost predicate SameBounds(t: Tree, t': Tree) {
    && |t'.nodes| == |t.nodes|
    && forall m :: 0 <= m < |t.nodes| ==>
         && t'.nodes[m].level == t.nodes[m].level && t'.nodes[m].ord == t.nodes[m].ord
         && t'.nodes[m].leaf == t.nodes[m].leaf && t'.nodes[m].low == t.nodes[m].low
         && t'.nodes[m].high == t.nodes[m].high
  }

  lemma SameInnerOrder(t: Tree, t': Tree)
    requires SameBounds(t, t') && InnerOrder(t)
    ensures InnerOrder(t')
  {
    forall n: NodeId, m: NodeId | Left(t', n, m) && !t'.nodes[n].leaf
      ensures t'.nodes[n].high.Some? && t'.nodes[m].low.Some? && t'.nodes[n].high.value <= t'.nodes[m].low.value
    {
      assert Left(t, n, m);
    }
  }

  lemma SplitInnerOrder(t: Tree, t': Tree, n: NodeId, sep: Key)
    requires SplitOutline(t, t', n, sep) && Shapes(t) && Links(t) && Chains(t) && InnerOrder(t)
    requires LowLe(t.nodes[n].low, sep) && HighGe(t.nodes[n].high, sep)
    ensures InnerOrder(t')
  {
    forall a: NodeId, b: NodeId | Left(t', a, b) && !t'.nodes[a].leaf
      ensures t'.nodes[a].high.Some? && t'.nodes[b].low.Some? && t'.nodes[a].high.value <= t'.nodes[b].low.value
    {
      var r := |t.nodes|;
      if b == r {
        SplitPlace(t, t', n, sep, a);
        if a != n { assert AtOrLeft(t, a, n); assert Left(t, a, n); }
      } else if a == r {
        SplitPlace(t, t', n, sep, b);
        assert Left(t, n, b);
      } else {
        assert Left(t, a, b);
      }
    }
  }

  lemma InnerSplitWellOrdered(capacity: nat, t: Tree, n: NodeId)
    requires TreeOK(t) && PcOK(capacity, t, InnerGrow(n)) && capacity >= 1 && WellOrdered(t)
    ensures WellOrdered(StepInnerGrow(t, n).0)
  {
    hide LeafOrder, RootOK, Hints, AllInOrder, InnerOrder;
    InnerGrowInOrder(capacity, t, n);
    var nd, t' := t.nodes[n], SplitInner(t, n);
    var mid := InnerMid(nd);
    assert LeafBounds(nd);
    SplitInnerShape(t, n);
    SplitInnerOrder(t, t', n, nd.keys[mid]);
    HalvesBounded(nd, mid);
    forall m: NodeId | m < |t'.nodes| && !t'.nodes[m].leaf ensures LeafBounds(t'.nodes[m]) {
      if m < |t.nodes| { assert LeafBounds(t.nodes[m]); }
    }
  }

  lemma HalvesBounded(nd: Node, mid: nat)
    requires LeafBounds(nd) && mid < |nd.keys|
    ensures forall i :: 0 <= i < mid ==> LowLe(nd.low, nd.keys[i]) && nd.keys[i] <= nd.keys[mid]
    ensures forall i :: mid <= i < |nd.keys| ==> HighGe(nd.high, nd.keys[i]) && nd.keys[mid] <= nd.keys[i]
    ensures LowLe(nd.low, nd.keys[mid])
  {
  }

  lemma RootGrowWellOrdered(capacity: nat, t: Tree, pr: Promotion)
    requires TreeOK(t) && PcOK(capacity, t, RootGrow(pr)) && Origins(t) && FromChild(t, pr) && WellOrdered(t)
    ensures WellOrdered(StepRootGrow(t, pr).0)
  {
    hide Links, Chains, Routing, Parents, LeafContents, LeafOrder, Located, Hints, Origins, AllInOrder, LeafBounds;
    RootGrowInOrder(capacity, t, pr);
    var t' := GrowRoot(t, pr.child, pr.sep, pr.right);
    forall n: NodeId, m: NodeId | Left(t', n, m) && !t'.nodes[n].leaf
      ensures t'.nodes[n].high.Some? && t'.nodes[m].low.Some? && t'.nodes[n].high.value <= t'.nodes[m].low.value
    {
      assert t.nodes[pr.child].level == t.nodes[t.root].level;
      assert Left(t, n, m);
    }
    OneKeyBounded(t'.nodes[|t.nodes|], pr.sep);
  }

  lemma OneKeyBounded(nd: Node, sep: Key)
    requires nd.keys == [sep] && nd.low.None? && nd.high.None?
    ensures LeafBounds(nd)
  {
  }

  // No other step touches an inner node's keys or bounds, or makes an inner node.
  ghost predicate SameInner(t: Tree, t': Tree) {
    && |t.nodes| <= |t'.nodes|
    && (forall m :: 0 <= m < |t.nodes| ==>
         && t'.nodes[m].leaf == t.nodes[m].leaf && t'.nodes[m].level == t.nodes[m].level
         && t'.nodes[m].ord == t.nodes[m].ord
         && (!t.nodes[m].leaf ==>
              && t'.nodes[m].keys == t.nodes[m].keys && t'.nodes[m].low == t.nodes[m].low
              && t'.nodes[m].high == t.nodes[m].high))
    && forall m :: |t.nodes| <= m < |t'.nodes| ==> t'.nodes[m].leaf
  }

  lemma QuietInner(capacity: nat, t: Tree, pc: PC, call: Call)
    requires !pc.InnerGrow? && !pc.AtParent? && !pc.RootGrow?
    ensures SameInner(t, StepThread(capacity, t, pc, call).0)
  {
    hide Batch, StepAt, StepLeafGrow;
    if pc.At? { AtSameInner(capacity, t, pc.op, pc.node); }
    if pc.LeafGrow? { LeafGrowSameInner(t, pc.node); }
  }

  lemma AtSameInner(capacity: nat, t: Tree, op: Op, n: NodeId)
    ensures SameInner(t, StepAt(capacity, t, op, n).0)
  {
    hide Batch;
  }

  lemma LeafGrowSameInner(t: Tree, n: NodeId)
    ensures SameInner(t, StepLeafGrow(t, n).0)
  {
  }

  lemma SameInnerWellOrdered(t: Tree, t': Tree)
    requires SameInner(t, t') && WellOrdered(t) && Shapes(t) && Shapes(t') && AllInOrder(t')
    ensures WellOrdered(t')
  {
    hide AllInOrder;
    forall n: NodeId | n < |t'.nodes| && !t'.nodes[n].leaf ensures LeafBounds(t'.nodes[n]) {
      assert LeafBounds(t.nodes[n]);
    }
    forall n: NodeId, m: NodeId | Left(t', n, m) && !t'.nodes[n].leaf
      ensures t'.nodes[n].high.Some? && t'.nodes[m].low.Some? && t'.nodes[n].high.value <= t'.nodes[m].low.value
    {
      assert !t'.nodes[m].leaf;
      assert Left(t, n, m);
    }
  }

  lemma StepWellOrderedIff(capacity: nat, t: Tree, pc: PC, call: Call)
    requires TreeOK(t) && PcOK(capacity, t, pc) && Fits(capacity, t, pc) && capacity >= 1
    requires Origins(t) && Neighbours(t) && (Carried(pc).Some? ==> FromChild(t, Carried(pc).value))
    requires WellOrdered(t)
    ensures WellOrdered(StepThread(capacity, t, pc, call).0) <==> !Misplaced(t, pc)
  {
    hide TreeOK, PcOK, Fits, Origins, Neighbours, FromChild, StepAt, StepLeafGrow, StepAtParent, StepInnerGrow,
      StepRootGrow, StepSpliced, StepRehomeChild, StepRootHints, StepRehome, StepReread, WellOrdered, Misplaced;
    match pc
    case AtParent(pr, n) => AtParentWellOrdered(capacity, t, pr, n);
    case InnerGrow(n) => InnerSplitWellOrdered(capacity, t, n); NotMisplaced(t, pc);
    case RootGrow(pr) => RootGrowWellOrdered(capacity, t, pr); NotMisplaced(t, pc);
    case _ => QuietWellOrdered(capacity, t, pc, call); NotMisplaced(t, pc);
  }

  lemma NotMisplaced(t: Tree, pc: PC)
    ensures !pc.AtParent? ==> !Misplaced(t, pc)
  {
  }

  lemma AtParentWellOrdered(capacity: nat, t: Tree, pr: Promotion, n: NodeId)
    requires TreeOK(t) && PcOK(capacity, t, AtParent(pr, n)) && Origins(t) && Neighbours(t) && FromChild(t, pr)
    requires WellOrdered(t)
    ensures WellOrdered(StepAtParent(t, pr, n).0) <==> !Misplaced(t, AtParent(pr, n))
  {
    hide TreeOK, Neighbours, Origins, WellOrdered, LeadsTo, Pending, FromChild, Splice;
    HolderAt(t, n, pr.child);
    if n < |t.nodes| && pr.child in t.nodes[n].children {
      var ci := IndexOf(t.nodes[n].children, pr.child);
      SpliceMade(capacity, t, pr, n);
      SpliceWellOrderedIff(t, n, ci, pr);
      if ci + 1 < |t.nodes[n].children| { SpliceNext(t, n, ci, pr); }
    } else {
      HopMakesNothing(t, pr, n);
    }
  }

  lemma HopMakesNothing(t: Tree, pr: Promotion, n: NodeId)
    requires n >= |t.nodes| || pr.child !in t.nodes[n].children
    ensures StepAtParent(t, pr, n).0 == t && !Misplaced(t, AtParent(pr, n))
  {
  }

  lemma QuietWellOrdered(capacity: nat, t: Tree, pc: PC, call: Call)
    requires TreeOK(t) && PcOK(capacity, t, pc) && Fits(capacity, t, pc) && capacity >= 1 && WellOrdered(t)
    requires !pc.InnerGrow? && !pc.AtParent? && !pc.RootGrow?
    ensures WellOrdered(StepThread(capacity, t, pc, call).0)
  {
    hide PcOK, Fits, StepThread, AllInOrder, InnerBounds, InnerOrder, Links, Chains, Routing, Parents, LeafContents,
      LeafOrder, Located, RootOK, Hints, Shapes, Evolves, Accounts;
    ThreadStep(capacity, t, pc, call);
    QuietInOrder(capacity, t, pc, call);
    QuietInner(capacity, t, pc, call);
    SameInnerWellOrdered(t, StepThread(capacity, t, pc, call).0);
  }

  ghost predicate MisplacedStep(s: State, s': State) {
    exists u: nat, call: Call :: Ready(s, u) && s' == Step(s, u, call) && Misplaced(s.tree, s.pcs[u])
  }

  lemma RunStepWellOrdered(states: seq<State>, k: nat)
    requires Run(states) && states[0].capacity >= 1 && k + 1 < |states| && WellOrdered(states[k].tree)
    ensures WellOrdered(states[k + 1].tree) <==> !MisplacedStep(states[k], states[k + 1])
  {
    hide Inv, TreeOK, PcOK, Fits, Origins, Neighbours, WellOrdered, Misplaced, StepThread, FromChild;
    RunKeepsOrderInv(states, k);
    var s, s' := states[k], states[k + 1];
    assert Follows(s, s');
    forall u: nat, call: Call | Ready(s, u) && s' == Step(s, u, call)
      ensures WellOrdered(s'.tree) <==> !Misplaced(s.tree, s.pcs[u])
    {
      InvParts(s, u, u);
      StepWellOrderedIff(s.capacity, s.tree, s.pcs[u], call);
    }
  }

  /** Through a whole run, on every level, children stand in the order of their level and
      separators are sorted and within their node's bounds, if and only if no splice in it
      was out of place. */
  lemma {:induction false} WellOrderedIff(states: seq<State>, j: nat)
    requires Run(states) && states[0].capacity >= 1 && j < |states|
    ensures (forall k :: 0 <= k <= j ==> WellOrdered(states[k].tree)) <==>
      (forall k :: 0 <= k < j ==> !MisplacedStep(states[k], states[k + 1]))
  {
    hide Run, WellOrdered, MisplacedStep;
    if j == 0 {
      StartWellOrdered(states);
    } else {
      WellOrderedIff(states, j - 1);
      if WellOrdered(states[j - 1].tree) { RunStepWellOrdered(states, j - 1); }
      assert states[(j - 1) + 1] == states[j];
    }
  }

  lemma StartWellOrdered(states: seq<State>)
    requires Run(states)
    ensures WellOrdered(states[0].tree)
  {
  }
}
