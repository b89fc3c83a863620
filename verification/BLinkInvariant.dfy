/** The invariant of the B-link protocol: what every thread can rely on where it stands,
    and why each step keeps it for that thread and for all the others. */
module BLinkInvariant {
  import opened Basics
  import opened TreeKeys
  import opened BLinkTree
  import opened BLinkThreads

  // ----- scans -----

  ghost predicate Emitted(op: Op, u: nat)
    requires op.Scan?
  {
    exists i :: 0 <= i < |op.out| && op.out[i].uid == u
  }

  ghost predicate InRange(t: Tree, op: Op, u: nat)
    requires op.Scan? && u < |t.log|
  {
    op.lo <= t.log[u].0 <= op.hi
  }

  // What has been emitted was written, matches, is in key order, and has no repeats.
  ghost predicate EmittedOK(t: Tree, op: Op)
    requires op.Scan?
  {
    && op.start <= |t.log|
    && (forall i :: 0 <= i < |op.out| ==>
         var e := op.out[i]; e.uid < |t.log| && t.log[e.uid] == (e.key, e.id) && op.lo <= e.key <= op.hi)
    && (forall i, j :: 0 <= i < j < |op.out| ==>
         op.out[i].key <= op.out[j].key && op.out[i].uid != op.out[j].uid)
  }

  // A scan about to read leaf n: it has emitted only entries now left of n, and every
  // match written before the scan was called and now left of n.
  ghost predicate LeafCursor(t: Tree, op: Op, n: NodeId)
    requires op.Scan? && op.start <= |t.log| == |t.loc| && n < |t.nodes|
  {
    && (forall i :: 0 <= i < |op.out| ==>
         && op.out[i].uid < |t.log| && Left(t, t.loc[op.out[i].uid], n)
         && t.nodes[n].low.Some? && op.out[i].key <= t.nodes[n].low.value)
    && (forall u :: 0 <= u < op.start && Left(t, t.loc[u], n) && InRange(t, op, u) ==> Emitted(op, u))
  }

  ghost predicate CursorOK(t: Tree, op: Op, n: NodeId) {
    && n < |t.nodes| && |t.loc| == |t.log|
    && if op.Ins? then LowLt(t.nodes[n].low, op.key)
       else EmittedOK(t, op) &&
            if t.nodes[n].leaf then LeafCursor(t, op, n)
            else op.out == [] && LowLt(t.nodes[n].low, op.lo)
  }

  ghost predicate ScanComplete(t: Tree, op: Op)
    requires op.Scan?
  {
    && EmittedOK(t, op)
    && forall u :: 0 <= u < op.start && InRange(t, op, u) ==> Emitted(op, u)
  }

  // ----- threads -----

  // A thread that keeps h while it waits for n waits downwards or rightwards.
  ghost predicate WaitsBelow(t: Tree, h: NodeId, n: NodeId) {
    h < |t.nodes| && n < |t.nodes| && (t.nodes[n].level < t.nodes[h].level || Left(t, h, n))
  }

  ghost predicate HeldOK(t: Tree, held: Option<NodeId>, n: NodeId) {
    held.Some? ==> WaitsBelow(t, held.value, n)
  }

  ghost predicate PendingOK(t: Tree, pr: Promotion) {
    Pending(t, pr.child, pr.sep, pr.right)
  }

  ghost predicate PcOK(capacity: nat, t: Tree, pc: PC) {
    match pc
    case Idle => true
    case WantRoot(op) => op.Scan? ==> op.out == [] && op.start <= |t.log|
    case Want(op, held, n) => CursorOK(t, op, n) && HeldOK(t, held, n)
    case At(op, n) => CursorOK(t, op, n)
    case LeafWantGrow(n) => n < |t.nodes| && t.nodes[n].leaf && |t.nodes[n].keys| == capacity + 1
    case LeafGrow(n) => n < |t.nodes| && t.nodes[n].leaf && |t.nodes[n].keys| == capacity + 1
    case WantParent(pr, held, n) => PendingOK(t, pr) && LeadsTo(t, n, pr.child) && HeldOK(t, held, n)
    case AtParent(pr, n) => PendingOK(t, pr) && LeadsTo(t, n, pr.child)
    case WantSpliced(r, n) => LeadsTo(t, n, r)
    case InnerWantGrow(n) => n < |t.nodes| && !t.nodes[n].leaf && |t.nodes[n].keys| == capacity + 1
    case InnerGrow(n) => n < |t.nodes| && !t.nodes[n].leaf && |t.nodes[n].keys| == capacity + 1
    case Rehome(pr, _) => PendingOK(t, pr) && !t.nodes[pr.right].leaf
    case RehomeChild(pr, _, c) => PendingOK(t, pr) && !t.nodes[pr.right].leaf && LeadsTo(t, pr.right, c)
    case WantRootCheck(pr) => PendingOK(t, pr)
    case RootWantGrow(pr) => PendingOK(t, pr) && t.root == pr.child
    case RootGrow(pr) => PendingOK(t, pr) && t.root == pr.child
    case WantReread(pr) => PendingOK(t, pr) && t.root != pr.child
    case RootHints(top, todo) => forall c :: c in todo ==> LeadsTo(t, top, c)
    case Done(op) => op.Scan? && ScanComplete(t, op)
    case Fault => false
  }

  // A node over capacity is locked by the thread that is about to split it.
  ghost predicate Splitting(pc: PC, n: NodeId) {
    match pc
    case LeafWantGrow(m) => m == n
    case LeafGrow(m) => m == n
    case WantSpliced(_, m) => m == n
    case InnerWantGrow(m) => m == n
    case InnerGrow(m) => m == n
    case _ => false
  }

  // The hint write that a spliced node is still owed.
  ghost predicate OwedHint(pc: PC, n: NodeId) {
    match pc
    case WantSpliced(r, _) => r == n
    case RootHints(_, todo) => n in todo
    case _ => false
  }

  ghost predicate Exclusive(s: State) {
    forall t, t' :: 0 <= t < t' < |s.pcs| ==> Holds(s.pcs[t]) !! Holds(s.pcs[t'])
  }

  ghost predicate OwesDistinct(s: State) {
    forall t, t' :: 0 <= t < t' < |s.pcs| && Owes(s.pcs[t]).Some? ==> Owes(s.pcs[t]) != Owes(s.pcs[t'])
  }

  ghost predicate SizesOK(s: State) {
    forall n :: 0 <= n < |s.tree.nodes| ==>
      |s.tree.nodes[n].keys| <= s.capacity ||
      (|s.tree.nodes[n].keys| == s.capacity + 1 && exists t :: 0 <= t < |s.pcs| && Splitting(s.pcs[t], n))
  }

  // Every node but the root has a holder, or a thread that owes it one; every held node
  // has a hint, or a thread that owes it one.
  ghost predicate DebtsKnown(s: State) {
    && |s.tree.par| == |s.tree.nodes|
    && (forall n :: 0 <= n < |s.tree.nodes| && s.tree.par[n].None? && n != s.tree.root ==>
         exists t :: 0 <= t < |s.pcs| && Owes(s.pcs[t]) == Some(n))
    && (forall n :: 0 <= n < |s.tree.nodes| && s.tree.par[n].Some? && s.tree.nodes[n].hint.None? ==>
         exists t :: 0 <= t < |s.pcs| && OwedHint(s.pcs[t], n))
  }

  ghost predicate ThreadsOK(s: State) {
    forall t :: 0 <= t < |s.pcs| ==> PcOK(s.capacity, s.tree, s.pcs[t])
  }

  ghost predicate Inv(s: State) {
    && s.capacity >= 1
    && TreeOK(s.tree) && ThreadsOK(s) && Exclusive(s) && OwesDistinct(s) && SizesOK(s) && DebtsKnown(s)
  }

  // ----- what other threads rely on survives a step -----

  // What one step of a thread at pc may change.
  ghost predicate StepFrame(t: Tree, t': Tree, pc: PC) {
    && |t.nodes| <= |t'.nodes| && |t.par| == |t.nodes| && |t'.par| == |t'.nodes|
    && (forall n :: 0 <= n < |t.nodes| && t'.nodes[n].keys != t.nodes[n].keys ==> NodeMutex(n) in Holds(pc))
    && (t'.root != t.root ==> RootMutex in Holds(pc) && t'.root >= |t.nodes|)
    && (forall n :: 0 <= n < |t.nodes| && t.par[n].None? && t'.par[n].Some? ==>
         n == t.root || Owes(pc) == Some(n))
  }

  lemma LeftStable(t: Tree, t': Tree, a: NodeId, b: NodeId)
    requires Evolves(t, t') && a < |t.nodes| && b < |t.nodes|
    ensures Left(t', a, b) <==> Left(t, a, b)
    ensures AtOrLeft(t', a, b) <==> AtOrLeft(t, a, b)
  {
  }

  lemma CursorStable(t: Tree, t': Tree, op: Op, n: NodeId)
    requires Evolves(t, t') && CursorOK(t, op, n)
    ensures CursorOK(t', op, n)
  {
    if op.Scan? && t.nodes[n].leaf {
      assert EmittedOK(t', op);
      forall i | 0 <= i < |op.out|
        ensures op.out[i].uid < |t'.log| && Left(t', t'.loc[op.out[i].uid], n)
      {
        assert Left(t, t.loc[op.out[i].uid], n);
      }
      forall u | 0 <= u < op.start && Left(t', t'.loc[u], n) && InRange(t', op, u)
        ensures Emitted(op, u)
      {
        assert Left(t, t.loc[u], n) && InRange(t, op, u);
      }
    }
  }

  lemma CompleteStable(t: Tree, t': Tree, op: Op)
    requires Evolves(t, t') && op.Scan? && ScanComplete(t, op)
    ensures ScanComplete(t', op)
  {
    forall u | 0 <= u < op.start && InRange(t', op, u) ensures Emitted(op, u) {
      assert InRange(t, op, u);
    }
  }

  lemma PendingStable(t: Tree, t': Tree, pc: PC, pc2: PC, pr: Promotion)
    requires Evolves(t, t') && StepFrame(t, t', pc) && PendingOK(t, pr)
    requires Owes(pc) != Some(pr.right)
    ensures PendingOK(t', pr)
  {
  }

  lemma PcStable(capacity: nat, t: Tree, t': Tree, pc: PC, pc2: PC)
    requires Evolves(t, t') && StepFrame(t, t', pc)
    requires Holds(pc) !! Holds(pc2)
    requires Owes(pc2).Some? ==> Owes(pc) != Owes(pc2)
    requires PcOK(capacity, t, pc2)
    ensures PcOK(capacity, t', pc2)
  {
    match pc2
    case Want(op, held, n) => CursorStable(t, t', op, n);
    case At(op, n) => CursorStable(t, t', op, n);
    case LeafWantGrow(n) => assert NodeMutex(n) in Holds(pc2);
    case LeafGrow(n) => assert NodeMutex(n) in Holds(pc2);
    case InnerWantGrow(n) => assert NodeMutex(n) in Holds(pc2);
    case InnerGrow(n) => assert NodeMutex(n) in Holds(pc2);
    case WantParent(pr, held, n) => PendingStable(t, t', pc, pc2, pr);
    case AtParent(pr, n) => PendingStable(t, t', pc, pc2, pr);
    case Rehome(pr, _) => PendingStable(t, t', pc, pc2, pr);
    case RehomeChild(pr, _, _) => PendingStable(t, t', pc, pc2, pr);
    case WantRootCheck(pr) => PendingStable(t, t', pc, pc2, pr);
    case RootWantGrow(pr) => PendingStable(t, t', pc, pc2, pr); assert RootMutex in Holds(pc2);
    case RootGrow(pr) => PendingStable(t, t', pc, pc2, pr); assert RootMutex in Holds(pc2);
    case WantReread(pr) => PendingStable(t, t', pc, pc2, pr);
    case Done(op) => CompleteStable(t, t', op);
    case _ =>
  }
}
