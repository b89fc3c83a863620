/** What the B-link protocol guarantees, over every interleaving of insert, find and range. */
module BLinkTheorems {
  import opened Basics
  import opened TreeKeys
  import opened BLinkTree
  import opened BLinkThreads
  import opened BLinkInvariant
  import opened BLinkSteps

  // ----- the invariant holds in every run -----

  lemma HolderFits(s: State, t: nat)
    requires Inv(s) && t < |s.pcs|
    ensures Fits(s.capacity, s.tree, s.pcs[t])
  {
    match s.pcs[t]
    case At(op, n) => HolderFitsNode(s, t, n);
    case AtParent(pr, n) => HolderFitsNode(s, t, n);
    case _ =>
  }

  // The holder of a node's mutex, unless it is the one splitting it, finds room in it.
  lemma HolderFitsNode(s: State, t: nat, n: NodeId)
    requires Inv(s) && t < |s.pcs| && n < |s.tree.nodes|
    requires NodeMutex(n) in Holds(s.pcs[t]) && !Splitting(s.pcs[t], n)
    ensures |s.tree.nodes[n].keys| <= s.capacity
  {
    hide Splitting, Holds, TreeOK, ThreadsOK, DebtsKnown, OwesDistinct;
    forall t' | 0 <= t' < |s.pcs| ensures !Splitting(s.pcs[t'], n) {
      SplitterHolds(s.pcs[t'], n);
      assert t' < t ==> Holds(s.pcs[t']) !! Holds(s.pcs[t]);
      assert t < t' ==> Holds(s.pcs[t]) !! Holds(s.pcs[t']);
    }
  }

  lemma SplitterHolds(pc: PC, n: NodeId)
    ensures Splitting(pc, n) ==> NodeMutex(n) in Holds(pc)
  {
  }

  lemma OwedInTree(capacity: nat, t: Tree, pc: PC)
    requires PcOK(capacity, t, pc) && Owes(pc).Some?
    ensures Owes(pc).value < |t.nodes| == |t.par| && t.par[Owes(pc).value].None?
  {
  }

  lemma OthersStable(s: State, t: nat, call: Call)
    requires Inv(s) && Ready(s, t)
    requires GoodStep(s.capacity, s.tree, s.pcs[t], Step(s, t, call).tree, Step(s, t, call).pcs[t])
    ensures ThreadsOK(Step(s, t, call))
  {
    var s' := Step(s, t, call);
    forall t' | 0 <= t' < |s'.pcs| ensures PcOK(s.capacity, s'.tree, s'.pcs[t']) {
      if t' != t {
        assert Holds(s.pcs[t]) !! Holds(s.pcs[t']);
        PcStable(s.capacity, s.tree, s'.tree, s.pcs[t], s.pcs[t']);
      }
    }
  }

  lemma LocksStable(s: State, t: nat, call: Call)
    requires Exclusive(s) && Ready(s, t) && LocksHandedOver(s.pcs[t], Step(s, t, call).pcs[t])
    ensures Exclusive(Step(s, t, call))
  {
    var s' := Step(s, t, call);
    forall a, b | 0 <= a < b < |s'.pcs| ensures Holds(s'.pcs[a]) !! Holds(s'.pcs[b]) {
      assert Holds(s.pcs[a]) !! Holds(s.pcs[b]);
    }
  }

  lemma DebtsStable(s: State, t: nat, call: Call)
    requires Inv(s) && Ready(s, t)
    requires GoodStep(s.capacity, s.tree, s.pcs[t], Step(s, t, call).tree, Step(s, t, call).pcs[t])
    ensures OwesDistinct(Step(s, t, call))
  {
    var s' := Step(s, t, call);
    forall a, b | 0 <= a < b < |s'.pcs| && Owes(s'.pcs[a]).Some? ensures Owes(s'.pcs[a]) != Owes(s'.pcs[b]) {
      if a != t { OwedInTree(s.capacity, s.tree, s.pcs[a]); }
      if b != t && Owes(s.pcs[b]).Some? { OwedInTree(s.capacity, s.tree, s.pcs[b]); }
    }
  }

  lemma SizesStable(s: State, t: nat, call: Call)
    requires Inv(s) && Ready(s, t)
    requires GoodStep(s.capacity, s.tree, s.pcs[t], Step(s, t, call).tree, Step(s, t, call).pcs[t])
    ensures SizesOK(Step(s, t, call))
  {
    var s' := Step(s, t, call);
    forall n | 0 <= n < |s'.tree.nodes| && |s'.tree.nodes[n].keys| > s.capacity
      ensures |s'.tree.nodes[n].keys| == s.capacity + 1
      ensures exists t' :: 0 <= t' < |s'.pcs| && Splitting(s'.pcs[t'], n)
    {
      if Splitting(s'.pcs[t], n) && |s'.tree.nodes[n].keys| == s.capacity + 1 {
      } else {
        var t' :| 0 <= t' < |s.pcs| && Splitting(s.pcs[t'], n);
        assert t' != t && Splitting(s'.pcs[t'], n);
      }
    }
  }

  lemma SplicesKnownStable(s: State, s': State, t: nat, n: NodeId)
    requires DebtsKnown(s) && t < |s.pcs| == |s'.pcs| && |s'.tree.par| == |s'.tree.nodes|
    requires forall u :: 0 <= u < |s.pcs| && u != t ==> s'.pcs[u] == s.pcs[u]
    requires SplicesHandedOver(s.tree, s'.tree, s.pcs[t], s'.pcs[t])
    requires n < |s'.tree.nodes| && s'.tree.par[n].None? && n != s'.tree.root
    ensures exists u :: 0 <= u < |s'.pcs| && Owes(s'.pcs[u]) == Some(n)
  {
    hide Owes;
    if Owes(s'.pcs[t]) != Some(n) {
      var u :| 0 <= u < |s.pcs| && Owes(s.pcs[u]) == Some(n);
      assert Owes(s'.pcs[u]) == Some(n);
    }
  }

  lemma HintsKnownStable(s: State, s': State, t: nat, n: NodeId)
    requires DebtsKnown(s) && t < |s.pcs| == |s'.pcs| && |s'.tree.par| == |s'.tree.nodes|
    requires forall u :: 0 <= u < |s.pcs| && u != t ==> s'.pcs[u] == s.pcs[u]
    requires HintsHandedOver(s.tree, s'.tree, s.pcs[t], s'.pcs[t])
    requires n < |s'.tree.nodes| && s'.tree.par[n].Some? && s'.tree.nodes[n].hint.None?
    ensures exists u :: 0 <= u < |s'.pcs| && OwedHint(s'.pcs[u], n)
  {
    hide OwedHint;
    if !OwedHint(s'.pcs[t], n) {
      var u :| 0 <= u < |s.pcs| && OwedHint(s.pcs[u], n);
      assert OwedHint(s'.pcs[u], n);
    }
  }

  lemma DebtsKnownStable(s: State, t: nat, call: Call)
    requires Inv(s) && Ready(s, t)
    requires GoodStep(s.capacity, s.tree, s.pcs[t], Step(s, t, call).tree, Step(s, t, call).pcs[t])
    ensures DebtsKnown(Step(s, t, call))
  {
    hide Owes, OwedHint, SplicesHandedOver, HintsHandedOver, TreeOK, Evolves, PcOK, StepThread;
    var s' := Step(s, t, call);
    forall n | 0 <= n < |s'.tree.nodes| && s'.tree.par[n].None? && n != s'.tree.root
      ensures exists u :: 0 <= u < |s'.pcs| && Owes(s'.pcs[u]) == Some(n)
    {
      SplicesKnownStable(s, s', t, n);
    }
    forall n | 0 <= n < |s'.tree.nodes| && s'.tree.par[n].Some? && s'.tree.nodes[n].hint.None?
      ensures exists u :: 0 <= u < |s'.pcs| && OwedHint(s'.pcs[u], n)
    {
      HintsKnownStable(s, s', t, n);
    }
  }

  lemma StepKeepsInv(s: State, t: nat, call: Call)
    requires Inv(s) && Ready(s, t)
    ensures Inv(Step(s, t, call))
  {
    HolderFits(s, t);
    ThreadStep(s.capacity, s.tree, s.pcs[t], call);
    OthersStable(s, t, call);
    LocksStable(s, t, call);
    DebtsStable(s, t, call);
    SizesStable(s, t, call);
    DebtsKnownStable(s, t, call);
  }

  lemma InitInv(s: State)
    requires Init(s) && s.capacity >= 1
    ensures Inv(s)
  {
    EmptyTreeOK();
  }

  // In every state of every run of every number of threads the invariant holds; in
  // particular no thread is ever at Fault.
  lemma {:induction false} RunKeepsInv(states: seq<State>, i: nat)
    requires Run(states) && states[0].capacity >= 1 && i < |states|
    ensures Inv(states[i])
    ensures states[i].capacity == states[0].capacity && |states[i].pcs| == |states[0].pcs|
  {
    if i == 0 {
      InitInv(states[0]);
    } else {
      RunKeepsInv(states, i - 1);
      assert Follows(states[i - 1], states[(i - 1) + 1]);
      var t: nat, call: Call :| Ready(states[i - 1], t) && states[i] == Step(states[i - 1], t, call);
      StepKeepsInv(states[i - 1], t, call);
    }
  }

  // ----- scans are exact -----

  // The entries of the log that a scan of [lo, hi] called at `start` writes must report.
  ghost predicate ExactScan(log: seq<(Key, InternalId)>, lo: Key, hi: Key, start: nat, out: seq<Entry>) {
    // ascending key order, no leaf write reported twice
    && (forall i, j :: 0 <= i < j < |out| ==> out[i].key <= out[j].key && out[i].uid != out[j].uid)
    // nothing that was not inserted, and nothing outside the range
    && (forall i :: 0 <= i < |out| ==>
         out[i].uid < |log| && log[out[i].uid] == (out[i].key, out[i].id) && lo <= out[i].key <= hi)
    // everything written before the call
    && start <= |log|
    && (forall u :: 0 <= u < start && lo <= log[u].0 <= hi ==> exists i :: 0 <= i < |out| && out[i].uid == u)
  }

  // Over every interleaving: a finished scan reports, in key order and once each, every
  // matching entry written before it was called, and only entries that were inserted.
  lemma FinishedScanIsExact(states: seq<State>, i: nat, t: nat)
    requires Run(states) && states[0].capacity >= 1 && i < |states|
    requires t < |states[i].pcs| && states[i].pcs[t].Done?
    ensures var op := states[i].pcs[t].op;
      op.Scan? && ExactScan(states[i].tree.log, op.lo, op.hi, op.start, op.out)
  {
    RunKeepsInv(states, i);
    var op := states[i].pcs[t].op;
    assert PcOK(states[i].capacity, states[i].tree, states[i].pcs[t]);
    forall u | 0 <= u < op.start && op.lo <= states[i].tree.log[u].0 <= op.hi
      ensures exists j :: 0 <= j < |op.out| && op.out[j].uid == u
    {
      assert InRange(states[i].tree, op, u) && Emitted(op, u);
    }
  }

  // What lies to the left of a node where an operation stands: for an insert, and for a scan
  // that is still on its way down, nothing that matches; for a scan at a leaf, nothing
  // written before its call that it has not emitted.
  lemma DescentMissesNothing(states: seq<State>, i: nat, t: nat, u: nat)
    requires Run(states) && states[0].capacity >= 1 && i < |states|
    requires t < |states[i].pcs| && states[i].pcs[t].At?
    ensures var tree, op, n := states[i].tree, states[i].pcs[t].op, states[i].pcs[t].node;
      && n < |tree.nodes| && |tree.log| == |tree.loc|
      && (op.Ins? || !tree.nodes[n].leaf ==> LowLt(tree.nodes[n].low, op.Target()))
      && (op.Ins? && u < |tree.log| && tree.nodes[n].leaf && Left(tree, tree.loc[u], n) ==> tree.log[u].0 < op.key)
      && (op.Scan? && !tree.nodes[n].leaf ==> op.out == [])
      && (op.Scan? && tree.nodes[n].leaf && u < op.start <= |tree.log| && Left(tree, tree.loc[u], n) ==>
           op.lo <= tree.log[u].0 <= op.hi ==> exists k :: 0 <= k < |op.out| && op.out[k].uid == u)
  {
    RunKeepsInv(states, i);
    var tree, op, n := states[i].tree, states[i].pcs[t].op, states[i].pcs[t].node;
    assert PcOK(states[i].capacity, tree, states[i].pcs[t]);
    if u < |tree.log| && tree.nodes[n].leaf && Left(tree, tree.loc[u], n) {
      EntryBounds(tree, u);
      if op.Scan? && u < op.start && op.lo <= tree.log[u].0 <= op.hi { assert InRange(tree, op, u) && Emitted(op, u); }
    }
  }

  predicate AtInner(s: State, t: nat) {
    t < |s.pcs| && s.pcs[t].At? && s.pcs[t].node < |s.tree.nodes| && !s.tree.nodes[s.pcs[t].node].leaf
  }

  // The node an operation goes to next from the root pointer or from an inner node, down or
  // to the right, starts below its key: so does the first leaf of a scan.
  lemma EveryArrivalIsBelow(states: seq<State>, i: nat, t: nat, call: Call)
    requires Run(states) && states[0].capacity >= 1 && i < |states| && Ready(states[i], t)
    requires states[i].pcs[t].WantRoot? || AtInner(states[i], t)
    ensures var s' := Step(states[i], t, call);
      && s'.pcs[t].Want? && s'.pcs[t].op == states[i].pcs[t].op && s'.pcs[t].node < |s'.tree.nodes|
      && LowLt(s'.tree.nodes[s'.pcs[t].node].low, s'.pcs[t].op.Target())
  {
    RunKeepsInv(states, i);
    var s := states[i];
    assert PcOK(s.capacity, s.tree, s.pcs[t]);
    if s.pcs[t].At? { InnerArrival(s.tree, s.pcs[t].op, s.pcs[t].node); }
  }

  lemma InnerArrival(t: Tree, op: Op, n: NodeId)
    requires TreeOK(t) && n < |t.nodes| && !t.nodes[n].leaf && LowLt(t.nodes[n].low, op.Target())
    ensures Usable(t, n)
    ensures var nd, k := t.nodes[n], op.Target();
      if nd.high.Some? && nd.high.value < k then
        nd.right.Some? && nd.right.value < |t.nodes| && LowLt(t.nodes[nd.right.value].low, k)
      else
        var c := LowerBound(nd.keys, k);
        c < |nd.children| && nd.children[c] < |t.nodes| && LowLt(t.nodes[nd.children[c]].low, k)
  {
    assert LinkOK(t, n);
    assert RouteOK(t, n, LowerBound(t.nodes[n].keys, op.Target()));
  }

  // ----- a promoted child is never lost -----

  // A hint always leads to the one internal node that holds the child, at the hint or to
  // its right on the same level.
  lemma HintLeadsToHolder(states: seq<State>, i: nat, c: NodeId, h: NodeId)
    requires Run(states) && states[0].capacity >= 1 && i < |states|
    requires c < |states[i].tree.nodes| && states[i].tree.nodes[c].hint == Some(h)
    ensures var tree := states[i].tree;
      exists p: NodeId ::
        && p < |tree.nodes| && !tree.nodes[p].leaf && c in tree.nodes[p].children && AtOrLeft(tree, h, p)
        && forall q: NodeId :: q < |tree.nodes| && c in tree.nodes[q].children ==> q == p
  {
    RunKeepsInv(states, i);
    var tree := states[i].tree;
    assert LeadsTo(tree, h, c);
    var p := tree.par[c].value;
    HolderAt(tree, p, c);
    assert AtOrLeft(tree, h, p) && c in tree.nodes[p].children;
    forall q: NodeId | q < |tree.nodes| && c in tree.nodes[q].children ensures q == p {
      HeldOnce(tree, q, c);
    }
  }

  lemma HeldOnce(t: Tree, q: NodeId, c: NodeId)
    requires TreeOK(t) && q < |t.nodes| && c in t.nodes[q].children
    ensures c < |t.par| && t.par[c] == Some(q)
  {
    var i := IndexOf(t.nodes[q].children, c);
    assert RouteOK(t, q, i);
  }

  // The nodes a walk right from h towards the holder of c still has in front of it.
  ghost function Ahead(t: Tree, h: NodeId, c: NodeId): set<NodeId>
    requires c < |t.par| && t.par[c].Some?
  {
    set n: NodeId | n < |t.nodes| && Left(t, h, n) && AtOrLeft(t, n, t.par[c].value)
  }

  // In one tree, a hop of `move_right_to_child_` gets closer to the holder, and there is
  // always a right link to follow.
  lemma HopComesCloser(t: Tree, h: NodeId, c: NodeId)
    requires TreeOK(t) && LeadsTo(t, h, c) && c !in t.nodes[h].children
    ensures t.nodes[h].right.Some? && LeadsTo(t, t.nodes[h].right.value, c)
    ensures |Ahead(t, t.nodes[h].right.value, c)| < |Ahead(t, h, c)|
  {
    HopToHolder(t, h, c);
    var r := t.nodes[h].right.value;
    assert r in Ahead(t, h, c) && r !in Ahead(t, r, c);
    assert Ahead(t, r, c) < Ahead(t, h, c);
    SmallerSet(Ahead(t, r, c), Ahead(t, h, c));
  }

  // Thread t walks right towards the holder of a promoted child.
  ghost predicate Walks(s: State, t: nat, pr: Promotion) {
    t < |s.pcs| && (s.pcs[t].WantParent? || s.pcs[t].AtParent?) && s.pcs[t].pr == pr
  }

  ghost predicate WalksThrough(states: seq<State>, i: nat, j: nat, t: nat, pr: Promotion) {
    i <= j < |states| && forall k :: i <= k <= j ==> Walks(states[k], t, pr)
  }

  // Where it stands, or is about to.
  function Stand(s: State, t: nat): NodeId
    requires t < |s.pcs| && (s.pcs[t].WantParent? || s.pcs[t].AtParent?)
  {
    s.pcs[t].node
  }

  // Step k of the run is a hop of that walk: the thread leaves a node for its right link.
  ghost predicate HopsAt(states: seq<State>, k: nat, t: nat) {
    k + 1 < |states| && t < |states[k].pcs| && t < |states[k + 1].pcs|
    && states[k].pcs[t].AtParent? && states[k + 1].pcs[t].WantParent?
  }

  ghost function Hops(states: seq<State>, i: nat, j: nat, t: nat): nat
    requires i <= j
    decreases j
  {
    if i == j then 0 else Hops(states, i, j - 1, t) + (if HopsAt(states, j - 1, t) then 1 else 0)
  }

  // The nodes right of a, up to b.
  ghost function Passed(t: Tree, a: NodeId, b: NodeId): set<NodeId> {
    set n: NodeId | n < |t.nodes| && Left(t, a, n) && AtOrLeft(t, n, b)
  }

  // What one step of the run does to a walk: nothing, or a hop strictly to the right.
  lemma WalkStep(states: seq<State>, k: nat, t: nat, pr: Promotion)
    requires Run(states) && states[0].capacity >= 1 && k + 1 < |states|
    requires Walks(states[k], t, pr) && Walks(states[k + 1], t, pr)
    ensures Evolves(states[k].tree, states[k + 1].tree)
    ensures Stand(states[k], t) < |states[k].tree.nodes|
    ensures if HopsAt(states, k, t) then Left(states[k + 1].tree, Stand(states[k], t), Stand(states[k + 1], t))
            else Stand(states[k + 1], t) == Stand(states[k], t)
  {
    hide TreeOK, GoodStep, Evolves, PcOK, Fits, Inv;
    RunKeepsInv(states, k);
    assert Follows(states[k], states[k + 1]);
    var u: nat, call: Call :| Ready(states[k], u) && states[k + 1] == Step(states[k], u, call);
    InvParts(states[k], t, u);
    ThreadStep(states[k].capacity, states[k].tree, states[k].pcs[u], call);
    GoodEvolves(states[k].capacity, states[k].tree, states[k].pcs[u], states[k + 1].tree, states[k + 1].pcs[u]);
    WalkerStands(states[k].capacity, states[k].tree, states[k].pcs[t]);
    if u == t && states[k].pcs[t].AtParent? {
      HopToHolder(states[k].tree, Stand(states[k], t), pr.child);
    }
  }

  lemma InvParts(s: State, t: nat, u: nat)
    requires Inv(s) && t < |s.pcs| && u < |s.pcs|
    ensures TreeOK(s.tree) && PcOK(s.capacity, s.tree, s.pcs[t]) && PcOK(s.capacity, s.tree, s.pcs[u])
    ensures Fits(s.capacity, s.tree, s.pcs[u]) && s.capacity >= 1
  {
    HolderFits(s, u);
  }

  lemma GoodEvolves(capacity: nat, t: Tree, pc: PC, t': Tree, pc': PC)
    requires GoodStep(capacity, t, pc, t', pc')
    ensures Evolves(t, t')
  {
  }

  lemma WalkerStands(capacity: nat, t: Tree, pc: PC)
    requires PcOK(capacity, t, pc) && (pc.WantParent? || pc.AtParent?)
    ensures LeadsTo(t, pc.node, pc.pr.child) && pc.node < |t.nodes|
  {
  }

  /** The nodes that one `move_right_to_child_` walk stands at come strictly later from hop
      to hop, whatever other threads split, splice or grow meanwhile: after so many hops at
      least as many different nodes have been passed. */
  lemma {:induction false} WalkGoesRight(states: seq<State>, i: nat, j: nat, t: nat, pr: Promotion)
    requires Run(states) && states[0].capacity >= 1 && WalksThrough(states, i, j, t, pr)
    ensures var a, b, tree := Stand(states[i], t), Stand(states[j], t), states[j].tree;
      && AtOrLeft(tree, a, b) && (Hops(states, i, j, t) > 0 ==> Left(tree, a, b))
      && Hops(states, i, j, t) <= |Passed(tree, a, b)|
    decreases j
  {
    hide Evolves;
    assert Walks(states[j], t, pr);
    if i == j {
      RunKeepsInv(states, i);
      InvParts(states[i], t, t);
      WalkerStands(states[i].capacity, states[i].tree, states[i].pcs[t]);
    } else {
      assert Walks(states[j - 1], t, pr) && Walks(states[(j - 1) + 1], t, pr);
      WalkGoesRight(states, i, j - 1, t, pr);
      WalkStep(states, j - 1, t, pr);
      WalkOn(states[j - 1].tree, states[j].tree, Stand(states[i], t), Stand(states[j - 1], t), Stand(states[j], t));
    }
  }

  // How a step extends what a walk from a to b has passed.
  lemma WalkOn(t: Tree, t': Tree, a: NodeId, b: NodeId, b': NodeId)
    requires Evolves(t, t') && AtOrLeft(t, a, b) && (b' == b || Left(t', b, b'))
    ensures AtOrLeft(t', a, b') && (Left(t, a, b) || b' != b ==> Left(t', a, b'))
    ensures |Passed(t', a, b')| >= |Passed(t, a, b)| + (if b' == b then 0 else 1)
  {
    LeftStable(t, t', a, b);
    forall n | n in Passed(t, a, b) ensures n in Passed(t', a, b') {
      LeftStable(t, t', a, n);
      LeftStable(t, t', n, b);
    }
    if b' == b {
      SubsetSize(Passed(t, a, b), Passed(t', a, b'));
    } else {
      forall n | n in Passed(t, a, b) ensures n != b' { LeftStable(t, t', n, b); }
      assert b' in Passed(t', a, b') && b' !in Passed(t, a, b);
      SubsetSize(Passed(t, a, b) + {b'}, Passed(t', a, b'));
    }
  }

  // So one walk takes fewer hops than there are nodes in the end.
  lemma HopsAreBounded(states: seq<State>, i: nat, j: nat, t: nat, pr: Promotion)
    requires Run(states) && states[0].capacity >= 1 && WalksThrough(states, i, j, t, pr)
    ensures Hops(states, i, j, t) < |states[j].tree.nodes|
  {
    WalkGoesRight(states, i, j, t, pr);
    assert Walks(states[i], t, pr) && Walks(states[j], t, pr);
    var tree, a, b := states[j].tree, Stand(states[i], t), Stand(states[j], t);
    NumbersSize(|tree.nodes|);
    assert a in Numbers(|tree.nodes|) && a !in Passed(tree, a, b);
    SmallerSet(Passed(tree, a, b), Numbers(|tree.nodes|));
  }

  // Once no insert is under way, every node but the root is held by the node its hint
  // leads to: no split is left half done.
  lemma QuiescentTreeIsWhole(states: seq<State>, i: nat, c: NodeId)
    requires Run(states) && states[0].capacity >= 1 && i < |states|
    requires forall t :: 0 <= t < |states[i].pcs| ==> states[i].pcs[t].Idle? || states[i].pcs[t].Done?
    requires c < |states[i].tree.nodes| && c != states[i].tree.root
    ensures var tree := states[i].tree;
      && c < |tree.par| && tree.par[c].Some? && tree.nodes[c].hint.Some?
      && LeadsTo(tree, tree.nodes[c].hint.value, c)
      && tree.par[c].value < |tree.nodes| && c in tree.nodes[tree.par[c].value].children
      && |tree.nodes[c].keys| <= states[i].capacity
  {
    RunKeepsInv(states, i);
    assert forall t :: 0 <= t < |states[i].pcs| ==>
      Owes(states[i].pcs[t]).None? && !OwedHint(states[i].pcs[t], c) && !Splitting(states[i].pcs[t], c);
  }

  // ----- no deadlock -----

  // w may be waited for while h is held: nodes lower or further right, or the grow mutex.
  ghost predicate Precedes(t: Tree, w: Resource, h: Resource) {
    match (w, h)
    case (GrowMutex, GrowMutex) => false
    case (GrowMutex, _) => true
    case (NodeMutex(n), NodeMutex(m)) => WaitsBelow(t, m, n)
    case (_, _) => false
  }

  lemma WaitsDownOrRight(capacity: nat, t: Tree, pc: PC, h: Resource)
    requires TreeOK(t) && PcOK(capacity, t, pc) && Waits(pc).Some? && h in Holds(pc)
    ensures Precedes(t, Waits(pc).value, h)
  {
    match pc
    case WantSpliced(r, n) =>
      assert t.nodes[t.par[r].value].level == t.nodes[r].level + 1;
    case RehomeChild(pr, _, c) =>
      assert t.nodes[t.par[c].value].level == t.nodes[c].level + 1;
    case _ =>
  }

  lemma PrecedesTransitive(t: Tree, a: Resource, b: Resource, c: Resource)
    requires Precedes(t, a, b) && Precedes(t, b, c)
    ensures Precedes(t, a, c)
  {
  }

  // Thread a waits for a mutex that thread b holds.
  ghost predicate Blocks(s: State, b: nat, a: nat) {
    && a < |s.pcs| && b < |s.pcs|
    && Waits(s.pcs[a]).Some? && Waits(s.pcs[a]).value in Holds(s.pcs[b])
  }

  // Along a chain of blocked threads the mutexes waited for come ever earlier.
  lemma {:induction false} ChainDescends(s: State, ts: seq<nat>)
    requires Inv(s) && |ts| >= 2
    requires forall i :: 0 <= i < |ts| - 1 ==> Blocks(s, ts[i + 1], ts[i])
    requires ts[|ts| - 1] < |s.pcs| && Waits(s.pcs[ts[|ts| - 1]]).Some?
    ensures ts[0] < |s.pcs| && Waits(s.pcs[ts[0]]).Some?
    ensures Precedes(s.tree, Waits(s.pcs[ts[|ts| - 1]]).value, Waits(s.pcs[ts[0]]).value)
  {
    assert Blocks(s, ts[0 + 1], ts[0]);
    var w0, w1 := Waits(s.pcs[ts[0]]).value, Waits(s.pcs[ts[|ts| - 1]]).value;
    if |ts| == 2 {
      WaitsDownOrRight(s.capacity, s.tree, s.pcs[ts[1]], w0);
    } else {
      var rest := ts[1..];
      forall i | 0 <= i < |rest| - 1 ensures Blocks(s, rest[i + 1], rest[i]) {
        assert Blocks(s, ts[(i + 1) + 1], ts[i + 1]);
      }
      ChainDescends(s, rest);
      WaitsDownOrRight(s.capacity, s.tree, s.pcs[ts[1]], w0);
      PrecedesTransitive(s.tree, w1, Waits(s.pcs[ts[1]]).value, w0);
    }
  }

  // No reachable state has a cycle of threads that wait for one another's mutexes.
  lemma NoDeadlock(states: seq<State>, i: nat, ts: seq<nat>)
    requires Run(states) && states[0].capacity >= 1 && i < |states|
    requires |ts| >= 2 && ts[0] == ts[|ts| - 1]
    ensures exists j :: 0 <= j < |ts| - 1 && !Blocks(states[i], ts[j + 1], ts[j])
  {
    RunKeepsInv(states, i);
    if forall j :: 0 <= j < |ts| - 1 ==> Blocks(states[i], ts[j + 1], ts[j]) {
      assert Blocks(states[i], ts[0 + 1], ts[0]);
      ChainDescends(states[i], ts);
      assert false;
    }
  }

  // The mutexes that may still come before r, as a finite set.
  ghost function Below(t: Tree, r: Resource): set<Resource> {
    (set n: NodeId | n < |t.nodes| && Precedes(t, NodeMutex(n), r) :: NodeMutex(n))
    + (if Precedes(t, GrowMutex, r) then {GrowMutex} else {})
  }

  lemma BelowShrinks(t: Tree, w': Resource, w: Resource)
    requires Precedes(t, w', w)
    ensures |Below(t, w')| < |Below(t, w)|
  {
    forall r | r in Below(t, w') ensures r in Below(t, w) { PrecedesTransitive(t, r, w', w); }
    assert w' in Below(t, w) && w' !in Below(t, w');
    SmallerSet(Below(t, w'), Below(t, w));
  }
}
