/** Each step of a thread keeps the B-link invariant. */
module BLinkSteps {
  import opened Basics
  import opened TreeKeys
  import opened BLinkTree
  import opened BLinkThreads
  import opened BLinkInvariant

  // ----- what one step does, seen from the rest of the state -----

  ghost predicate LocksHandedOver(pc: PC, pc': PC) {
    Holds(pc') <= Holds(pc) + (if Waits(pc).Some? then {Waits(pc).value} else {})
  }

  ghost predicate SplicesHandedOver(t: Tree, t': Tree, pc: PC, pc': PC)
    requires |t.par| == |t.nodes| && |t'.par| == |t'.nodes|
  {
    && (Owes(pc').Some? && Owes(pc') != Owes(pc) ==> Owes(pc').value >= |t.nodes|)
    && (forall n :: 0 <= n < |t'.nodes| && t'.par[n].None? && n != t'.root ==>
         Owes(pc') == Some(n) || (n < |t.nodes| && t.par[n].None? && n != t.root && Owes(pc) != Some(n)))
  }

  ghost predicate HintsHandedOver(t: Tree, t': Tree, pc: PC, pc': PC)
    requires |t.par| == |t.nodes| && |t'.par| == |t'.nodes|
  {
    forall n :: 0 <= n < |t'.nodes| && t'.par[n].Some? && t'.nodes[n].hint.None? ==>
      OwedHint(pc', n) ||
      (n < |t.nodes| && t.par[n].Some? && t.nodes[n].hint.None? && !OwedHint(pc, n))
  }

  ghost predicate SizesHandedOver(capacity: nat, t: Tree, t': Tree, pc: PC, pc': PC) {
    forall n :: 0 <= n < |t'.nodes| ==>
      || |t'.nodes[n].keys| <= capacity
      || (|t'.nodes[n].keys| == capacity + 1 && Splitting(pc', n))
      || (n < |t.nodes| && t'.nodes[n].keys == t.nodes[n].keys && !Splitting(pc, n))
  }

  ghost predicate Accounts(capacity: nat, t: Tree, pc: PC, t': Tree, pc': PC) {
    && StepFrame(t, t', pc) && LocksHandedOver(pc, pc') && SplicesHandedOver(t, t', pc, pc')
    && HintsHandedOver(t, t', pc, pc') && SizesHandedOver(capacity, t, t', pc, pc')
  }

  ghost predicate GoodStep(capacity: nat, t: Tree, pc: PC, t': Tree, pc': PC) {
    && TreeOK(t') && Evolves(t, t') && PcOK(capacity, t', pc') && Accounts(capacity, t, pc, t', pc')
  }

  // The room a thread finds in the node it works on.
  ghost predicate Fits(capacity: nat, t: Tree, pc: PC) {
    match pc
    case At(_, n) => n < |t.nodes| && |t.nodes[n].keys| <= capacity
    case AtParent(_, n) => n < |t.nodes| && |t.nodes[n].keys| <= capacity
    case WantSpliced(_, n) => n < |t.nodes| && |t.nodes[n].keys| <= capacity + 1
    case _ => true
  }

  // ----- routing -----

  // Hopping right past a high key keeps the bound: the right node starts at that key.
  lemma HopKeeps(t: Tree, op: Op, n: NodeId)
    requires TreeOK(t) && CursorOK(t, op, n)
    requires t.nodes[n].high.Some? && t.nodes[n].high.value < op.Target()
    ensures t.nodes[n].right.Some?
    ensures CursorOK(t, op, t.nodes[n].right.value) && Left(t, n, t.nodes[n].right.value)
  {
    assert LinkOK(t, n);
    var r := t.nodes[n].right.value;
    if op.Scan? && t.nodes[n].leaf {
      LeafCursorHop(t, op, n);
    }
  }

  // An entry left of r = right(n) is in n or left of n.
  lemma LeftOfRight(t: Tree, n: NodeId, a: NodeId)
    requires Links(t) && Chains(t) && n < |t.nodes| && t.nodes[n].right.Some?
    requires Left(t, a, t.nodes[n].right.value) && a != n
    ensures Left(t, a, n)
  {
    assert LinkOK(t, n);
    assert AtOrLeft(t, n, a) ==> AtOrLeft(t, t.nodes[n].right.value, a);
  }

  // Keys of a leaf stay within its bounds.
  lemma EntryBounds(t: Tree, u: nat)
    requires Shapes(t) && Located(t) && LeafContents(t) && u < |t.log|
    ensures t.loc[u] < |t.nodes| && t.nodes[t.loc[u]].leaf
    ensures LowLe(t.nodes[t.loc[u]].low, t.log[u].0) && HighGe(t.nodes[t.loc[u]].high, t.log[u].0)
  {
    var n := t.loc[u];
    var i :| 0 <= i < |t.nodes[n].uids| && t.nodes[n].uids[i] == u;
    assert EntryAt(t, n, i) && LeafBounds(t.nodes[n]);
  }

  lemma LeafCursorHop(t: Tree, op: Op, n: NodeId)
    requires TreeOK(t) && op.Scan? && n < |t.nodes| && t.nodes[n].leaf
    requires CursorOK(t, op, n) && t.nodes[n].high.Some? && t.nodes[n].high.value < op.lo
    ensures t.nodes[n].right.Some? && t.nodes[n].right.value < |t.nodes| && LeafCursor(t, op, t.nodes[n].right.value)
  {
    assert LinkOK(t, n);
    var r := t.nodes[n].right.value;
    assert LeafBounds(t.nodes[n]);
    forall u | 0 <= u < op.start && Left(t, t.loc[u], r) ensures !InRange(t, op, u) {
      EntryBounds(t, u);
      if t.loc[u] != n { LeftOfRight(t, n, t.loc[u]); }
    }
  }

  // A descent reaches child i only for keys above the child's low bound.
  lemma DescendKeeps(t: Tree, op: Op, n: NodeId)
    requires TreeOK(t) && CursorOK(t, op, n) && !t.nodes[n].leaf
    ensures var i := LowerBound(t.nodes[n].keys, op.Target()); i < |t.nodes[n].children|
    ensures var c := t.nodes[n].children[LowerBound(t.nodes[n].keys, op.Target())];
      CursorOK(t, op, c) && WaitsBelow(t, n, c)
  {
    var i := LowerBound(t.nodes[n].keys, op.Target());
    assert RouteOK(t, n, i);
    var c := t.nodes[n].children[i];
    if op.Scan? && t.nodes[c].leaf {
      FirstLeafCursor(t, op, c);
    }
  }

  // At the first leaf reached nothing to its left matches.
  lemma FirstLeafCursor(t: Tree, op: Op, c: NodeId)
    requires TreeOK(t) && op.Scan? && op.out == [] && op.start <= |t.log|
    requires c < |t.nodes| && t.nodes[c].leaf && LowLt(t.nodes[c].low, op.lo)
    ensures LeafCursor(t, op, c)
  {
    forall u | 0 <= u < op.start && Left(t, t.loc[u], c) ensures !InRange(t, op, u) {
      EntryBounds(t, u);
    }
  }

  // ----- the scan of one leaf -----

  lemma BatchElements(t: Tree, n: NodeId, lo: Key, hi: Key)
    requires Shapes(t) && Located(t) && LeafContents(t) && n < |t.nodes| && t.nodes[n].leaf
    ensures forall i :: 0 <= i < |Batch(t.nodes[n], lo, hi)| ==>
      var e := Batch(t.nodes[n], lo, hi)[i];
      && e.uid < |t.log| && t.loc[e.uid] == n && t.log[e.uid] == (e.key, e.id)
      && lo <= e.key <= hi && LowLe(t.nodes[n].low, e.key) && HighGe(t.nodes[n].high, e.key)
    ensures forall i, j :: 0 <= i < j < |Batch(t.nodes[n], lo, hi)| ==>
      && Batch(t.nodes[n], lo, hi)[i].key <= Batch(t.nodes[n], lo, hi)[j].key
      && Batch(t.nodes[n], lo, hi)[i].uid != Batch(t.nodes[n], lo, hi)[j].uid
  {
    var nd := t.nodes[n];
    var from := LowerBound(nd.keys, lo);
    var b := Batch(nd, lo, hi);
    assert LeafBounds(nd);
    forall i | 0 <= i < |b|
      ensures b[i].uid < |t.log| && t.loc[b[i].uid] == n && t.log[b[i].uid] == (b[i].key, b[i].id)
              && lo <= b[i].key <= hi && LowLe(nd.low, b[i].key) && HighGe(nd.high, b[i].key)
    {
      assert EntryAt(t, n, from + i);
    }
  }

  // Every matching entry of the leaf is in the batch.
  lemma BatchComplete(t: Tree, n: NodeId, lo: Key, hi: Key, u: nat)
    requires Shapes(t) && Located(t) && LeafContents(t) && n < |t.nodes| && t.nodes[n].leaf
    requires u < |t.log| && t.loc[u] == n && lo <= t.log[u].0 <= hi
    ensures exists i :: 0 <= i < |Batch(t.nodes[n], lo, hi)| && Batch(t.nodes[n], lo, hi)[i].uid == u
  {
    var nd := t.nodes[n];
    var from := LowerBound(nd.keys, lo);
    var to := ScanEnd(nd.keys, from, hi);
    assert LeafBounds(nd);
    var i :| 0 <= i < |nd.uids| && nd.uids[i] == u;
    assert EntryAt(t, n, i);
    assert Batch(nd, lo, hi)[i - from].uid == u;
  }

  lemma ReadLeafEmits(t: Tree, op: Op, n: NodeId)
    requires TreeOK(t) && op.Scan? && CursorOK(t, op, n) && t.nodes[n].leaf
    ensures EmittedOK(t, op.(out := op.out + Batch(t.nodes[n], op.lo, op.hi)))
  {
    BatchElements(t, n, op.lo, op.hi);
  }

  lemma EmittedAppend(op: Op, b: seq<Entry>, u: nat)
    requires op.Scan?
    requires Emitted(op, u) || exists i :: 0 <= i < |b| && b[i].uid == u
    ensures Emitted(op.(out := op.out + b), u)
  {
    var out := op.out + b;
    if Emitted(op, u) {
      var i :| 0 <= i < |op.out| && op.out[i].uid == u;
      assert out[i].uid == u;
    } else {
      var i :| 0 <= i < |b| && b[i].uid == u;
      assert out[|op.out| + i].uid == u;
    }
  }

  lemma ReadLeafCovers(t: Tree, op: Op, n: NodeId, u: nat)
    requires Shapes(t) && Located(t) && LeafContents(t) && Chains(t)
    requires op.Scan? && CursorOK(t, op, n) && t.nodes[n].leaf
    requires u < op.start && InRange(t, op, u) && AtOrLeft(t, t.loc[u], n)
    ensures Emitted(op.(out := op.out + Batch(t.nodes[n], op.lo, op.hi)), u)
  {
    if t.loc[u] == n {
      BatchComplete(t, n, op.lo, op.hi, u);
    } else {
      assert Left(t, t.loc[u], n);
    }
    EmittedAppend(op, Batch(t.nodes[n], op.lo, op.hi), u);
  }

  // Going on to the right link read with the batch.
  lemma ReadLeafNext(t: Tree, op: Op, n: NodeId)
    requires TreeOK(t) && op.Scan? && CursorOK(t, op, n) && t.nodes[n].leaf && t.nodes[n].right.Some?
    ensures CursorOK(t, op.(out := op.out + Batch(t.nodes[n], op.lo, op.hi)), t.nodes[n].right.value)
  {
    var next := op.(out := op.out + Batch(t.nodes[n], op.lo, op.hi));
    var r := t.nodes[n].right.value;
    assert LinkOK(t, n) && LeafBounds(t.nodes[n]);
    ReadLeafEmits(t, op, n);
    BatchElements(t, n, op.lo, op.hi);
    forall i | 0 <= i < |next.out|
      ensures Left(t, t.loc[next.out[i].uid], r) && next.out[i].key <= t.nodes[r].low.value
    {
      if i < |op.out| { assert Left(t, t.loc[op.out[i].uid], n); }
    }
    forall u | 0 <= u < next.start && Left(t, t.loc[u], r) && InRange(t, next, u) ensures Emitted(next, u) {
      if t.loc[u] != n { LeftOfRight(t, n, t.loc[u]); }
      assert InRange(t, op, u);
      ReadLeafCovers(t, op, n, u);
    }
  }

  // Stopping at a key above hi, or at the last leaf.
  lemma ReadLeafDone(t: Tree, op: Op, n: NodeId)
    requires TreeOK(t) && op.Scan? && CursorOK(t, op, n) && t.nodes[n].leaf
    requires ScanEnd(t.nodes[n].keys, LowerBound(t.nodes[n].keys, op.lo), op.hi) < |t.nodes[n].keys|
             || t.nodes[n].right.None?
    ensures ScanComplete(t, op.(out := op.out + Batch(t.nodes[n], op.lo, op.hi)))
  {
    var next := op.(out := op.out + Batch(t.nodes[n], op.lo, op.hi));
    ReadLeafEmits(t, op, n);
    assert LinkOK(t, n) && LeafBounds(t.nodes[n]);
    forall u | 0 <= u < next.start && InRange(t, next, u) ensures Emitted(next, u) {
      EntryBounds(t, u);
      assert InRange(t, op, u);
      assert !AtOrLeft(t, t.loc[u], n) ==> Left(t, n, t.loc[u]);
      ReadLeafCovers(t, op, n, u);
    }
  }

  // ----- one lemma per kind of step -----

  lemma EvolvesSelf(t: Tree)
    requires TreeOK(t)
    ensures Evolves(t, t)
  {
  }

  // A step that only moves the thread on.
  lemma QuietStep(capacity: nat, t: Tree, pc: PC, pc': PC)
    requires TreeOK(t) && PcOK(capacity, t, pc) && PcOK(capacity, t, pc')
    requires LocksHandedOver(pc, pc') && Owes(pc') == Owes(pc)
    requires forall n: NodeId :: OwedHint(pc, n) ==> OwedHint(pc', n) || (n < |t.nodes| && t.nodes[n].hint.Some?)
    requires forall n :: 0 <= n < |t.nodes| && Splitting(pc, n) ==>
      |t.nodes[n].keys| <= capacity || (|t.nodes[n].keys| == capacity + 1 && Splitting(pc', n))
    ensures GoodStep(capacity, t, pc, t, pc')
  {
    EvolvesSelf(t);
  }

  lemma AtStep(capacity: nat, t: Tree, op: Op, n: NodeId)
    requires TreeOK(t) && PcOK(capacity, t, At(op, n)) && Fits(capacity, t, At(op, n))
    ensures var (t', pc') := StepAt(capacity, t, op, n); GoodStep(capacity, t, At(op, n), t', pc')
  {
    var nd := t.nodes[n];
    var pc := At(op, n);
    if nd.high.Some? && nd.high.value < op.Target() {
      HopKeeps(t, op, n);
      QuietStep(capacity, t, pc, Want(op, Some(n), nd.right.value));
    } else if !nd.leaf {
      DescendKeeps(t, op, n);
      QuietStep(capacity, t, pc, Want(op, Some(n), nd.children[LowerBound(nd.keys, op.Target())]));
    } else if op.Ins? {
      WriteStep(capacity, t, op, n);
    } else {
      ReadStep(capacity, t, op, n);
    }
  }

  lemma ReadStep(capacity: nat, t: Tree, op: Op, n: NodeId)
    requires TreeOK(t) && PcOK(capacity, t, At(op, n)) && op.Scan? && t.nodes[n].leaf
    requires HighGe(t.nodes[n].high, op.lo)
    ensures var (t', pc') := StepAt(capacity, t, op, n); GoodStep(capacity, t, At(op, n), t', pc')
  {
    hide TreeOK, GoodStep, CursorOK, ScanComplete;
    ReadUsable(t, op, n);
    var nd := t.nodes[n];
    var next := op.(out := op.out + Batch(nd, op.lo, op.hi));
    if ScanEnd(nd.keys, LowerBound(nd.keys, op.lo), op.hi) < |nd.keys| || nd.right.None? {
      ReadLeafDone(t, op, n);
      QuietStep(capacity, t, At(op, n), Done(next));
    } else {
      ReadLeafNext(t, op, n);
      QuietStep(capacity, t, At(op, n), Want(next, None, nd.right.value));
    }
  }

  lemma ReadUsable(t: Tree, op: Op, n: NodeId)
    requires TreeOK(t) && CursorOK(t, op, n)
    ensures Usable(t, n)
  {
  }

  lemma WriteAccounts(capacity: nat, t: Tree, op: Op, n: NodeId)
    requires Shapes(t) && |t.par| == |t.nodes| && Fits(capacity, t, At(op, n)) && op.Ins? && t.nodes[n].leaf
    requires HighGe(t.nodes[n].high, op.key)
    ensures var (t', pc') := StepAt(capacity, t, op, n); Accounts(capacity, t, At(op, n), t', pc')
  {
  }

  lemma WriteStep(capacity: nat, t: Tree, op: Op, n: NodeId)
    requires TreeOK(t) && PcOK(capacity, t, At(op, n)) && Fits(capacity, t, At(op, n))
    requires op.Ins? && t.nodes[n].leaf && HighGe(t.nodes[n].high, op.key)
    ensures var (t', pc') := StepAt(capacity, t, op, n); GoodStep(capacity, t, At(op, n), t', pc')
  {
    WriteAccounts(capacity, t, op, n);
    WriteLeafKeeps(t, n, op.key, op.id);
  }

  lemma LeafGrowAccounts(capacity: nat, t: Tree, n: NodeId)
    requires Shapes(t) && |t.par| == |t.nodes| && PcOK(capacity, t, LeafGrow(n)) && capacity >= 1
    ensures var (t', pc') := StepLeafGrow(t, n); Accounts(capacity, t, LeafGrow(n), t', pc')
  {
  }

  lemma LeafGrowStep(capacity: nat, t: Tree, n: NodeId)
    requires TreeOK(t) && PcOK(capacity, t, LeafGrow(n)) && capacity >= 1
    ensures var (t', pc') := StepLeafGrow(t, n); GoodStep(capacity, t, LeafGrow(n), t', pc')
  {
    hide TreeOK, Evolves, PcOK, Accounts, SplitLeaf;
    LeafGrowParts(capacity, t, n);
    LeafGrowAccounts(capacity, t, n);
    SplitLeafKeeps(t, n);
    LeafGrowPc(capacity, t, n);
  }

  lemma LeafGrowParts(capacity: nat, t: Tree, n: NodeId)
    requires TreeOK(t) && PcOK(capacity, t, LeafGrow(n)) && capacity >= 1
    ensures Shapes(t) && |t.par| == |t.nodes| && n < |t.nodes| && t.nodes[n].leaf && |t.nodes[n].keys| >= 2
    ensures Usable(t, n)
  {
  }

  // The thread goes on to splice what it split off.
  lemma LeafGrowPc(capacity: nat, t: Tree, n: NodeId)
    requires TreeOK(t) && PcOK(capacity, t, LeafGrow(n)) && capacity >= 1
    ensures var (t', pc') := StepLeafGrow(t, n); PcOK(capacity, t', pc')
  {
    hide TreeOK, Evolves, LeadsTo;
    LeafGrowParts(capacity, t, n);
    SplitLeafKeeps(t, n);
    if t.nodes[n].hint.Some? { LeafGrowLeads(t, n); }
  }

  lemma LeafGrowLeads(t: Tree, n: NodeId)
    requires TreeOK(t) && n < |t.nodes| && t.nodes[n].leaf && |t.nodes[n].keys| >= 2 && t.nodes[n].hint.Some?
    requires TreeOK(SplitLeaf(t, n)) && Evolves(t, SplitLeaf(t, n))
    ensures LeadsTo(SplitLeaf(t, n), t.nodes[n].hint.value, n)
  {
    assert LeadsTo(t, t.nodes[n].hint.value, n);
  }

  // The assert of `move_right_to_child_` cannot fail: the child's holder is still ahead.
  lemma HopToHolder(t: Tree, h: NodeId, c: NodeId)
    requires TreeOK(t) && LeadsTo(t, h, c) && c !in t.nodes[h].children
    ensures t.nodes[h].right.Some? && LeadsTo(t, t.nodes[h].right.value, c)
    ensures Left(t, h, t.nodes[h].right.value)
  {
    var p := t.par[c].value;
    assert c in t.nodes[p].children;
    assert h != p && AtOrLeft(t, h, p);
    assert AtOrLeft(t, t.nodes[h].right.value, p) && LinkOK(t, h);
  }

  lemma HolderAt(t: Tree, h: NodeId, c: NodeId)
    requires TreeOK(t) && LeadsTo(t, h, c)
    ensures !t.nodes[h].leaf
    ensures c in t.nodes[h].children ==> t.par[c] == Some(h)
  {
    assert t.nodes[t.par[c].value].level == t.nodes[c].level + 1;
    if c in t.nodes[h].children {
      assert RouteOK(t, h, IndexOf(t.nodes[h].children, c));
    }
  }

  lemma AtParentStep(capacity: nat, t: Tree, pr: Promotion, n: NodeId)
    requires TreeOK(t) && PcOK(capacity, t, AtParent(pr, n)) && Fits(capacity, t, AtParent(pr, n))
    ensures var (t', pc') := StepAtParent(t, pr, n); GoodStep(capacity, t, AtParent(pr, n), t', pc')
  {
    HolderAt(t, n, pr.child);
    if pr.child !in t.nodes[n].children {
      HopToHolder(t, n, pr.child);
      QuietStep(capacity, t, AtParent(pr, n), WantParent(pr, Some(n), t.nodes[n].right.value));
    } else {
      SpliceStep(capacity, t, pr, n);
    }
  }

  lemma SpliceAccounts(capacity: nat, t: Tree, pr: Promotion, n: NodeId)
    requires Shapes(t) && |t.par| == |t.nodes| && PendingOK(t, pr) && n < |t.nodes| && !t.nodes[n].leaf
    requires pr.child in t.nodes[n].children && Fits(capacity, t, AtParent(pr, n))
    ensures var (t', pc') := StepAtParent(t, pr, n); Accounts(capacity, t, AtParent(pr, n), t', pc')
  {
  }

  lemma SpliceStep(capacity: nat, t: Tree, pr: Promotion, n: NodeId)
    requires TreeOK(t) && PendingOK(t, pr) && n < |t.nodes| && !t.nodes[n].leaf
    requires pr.child in t.nodes[n].children && Fits(capacity, t, AtParent(pr, n))
    ensures var (t', pc') := StepAtParent(t, pr, n); GoodStep(capacity, t, AtParent(pr, n), t', pc')
  {
    var ci := IndexOf(t.nodes[n].children, pr.child);
    SpliceAccounts(capacity, t, pr, n);
    SpliceKeeps(t, n, ci, pr.child, pr.sep, pr.right);
  }

  lemma SplicedAccounts(capacity: nat, t: Tree, r: NodeId, n: NodeId)
    requires Shapes(t) && |t.par| == |t.nodes| && r < |t.nodes|
    requires Fits(capacity, t, WantSpliced(r, n))
    ensures var (t', pc') := StepSpliced(capacity, t, r, n); Accounts(capacity, t, WantSpliced(r, n), t', pc')
  {
  }

  lemma SplicedStep(capacity: nat, t: Tree, r: NodeId, n: NodeId)
    requires TreeOK(t) && PcOK(capacity, t, WantSpliced(r, n)) && Fits(capacity, t, WantSpliced(r, n))
    ensures var (t', pc') := StepSpliced(capacity, t, r, n); GoodStep(capacity, t, WantSpliced(r, n), t', pc')
  {
    SplicedAccounts(capacity, t, r, n);
    HolderAt(t, n, r);
    WriteHintKeeps(t, r, n);
  }

  lemma InnerGrowPars(t: Tree, n: NodeId, m: NodeId)
    requires Shapes(t) && Routing(t) && Parents(t)
    requires n < |t.nodes| && !t.nodes[n].leaf && |t.nodes[n].keys| > 0 && m < |t.nodes|
    ensures SplitInner(t, n).par[m].Some? <==> t.par[m].Some?
    ensures SplitInner(t, n).nodes[m].hint == t.nodes[m].hint
  {
    if m in t.nodes[n].children[InnerMid(t.nodes[n]) + 1..] { SplitInnerMoved(t, n, m); }
  }

  lemma InnerGrowAccounts(capacity: nat, t: Tree, n: NodeId)
    requires Shapes(t) && Routing(t) && Parents(t) && PcOK(capacity, t, InnerGrow(n)) && capacity >= 1
    ensures var (t', pc') := StepInnerGrow(t, n); Accounts(capacity, t, InnerGrow(n), t', pc')
  {
    hide StepInnerGrow, Shapes, Routing, Parents, SizesHandedOver;
    var (t', pc') := StepInnerGrow(t, n);
    InnerGrowShape(capacity, t, n);
    InnerGrowSizes(capacity, t, n);
  }

  // One node more, with neither holder nor hint; the others keep theirs.
  lemma InnerGrowShape(capacity: nat, t: Tree, n: NodeId)
    requires Shapes(t) && Routing(t) && Parents(t) && PcOK(capacity, t, InnerGrow(n)) && capacity >= 1
    ensures |t.par| == |t.nodes|
    ensures var (t', pc') := StepInnerGrow(t, n);
      && |t'.nodes| == |t'.par| == |t.nodes| + 1 && t'.root == t.root
      && t'.par[|t.nodes|].None? && t'.nodes[|t.nodes|].hint.None?
      && (forall m :: 0 <= m < |t.nodes| ==>
           (t'.par[m].Some? <==> t.par[m].Some?) && t'.nodes[m].hint == t.nodes[m].hint)
      && pc'.Rehome? && pc'.pr.child == n && pc'.pr.right == |t.nodes|
  {
    hide RouteOK, Distinct;
    var t' := StepInnerGrow(t, n).0;
    forall m | 0 <= m < |t.nodes|
      ensures t'.par[m].Some? <==> t.par[m].Some?
      ensures t'.nodes[m].hint == t.nodes[m].hint
    {
      InnerGrowPars(t, n, m);
    }
  }

  lemma InnerGrowSizes(capacity: nat, t: Tree, n: NodeId)
    requires Shapes(t) && |t.par| == |t.nodes| && PcOK(capacity, t, InnerGrow(n)) && capacity >= 1
    ensures var (t', pc') := StepInnerGrow(t, n);
      StepKeysOnly(t, t', n) && SizesHandedOver(capacity, t, t', InnerGrow(n), pc')
  {
  }

  // Among the nodes that were there, only n may have other keys.
  ghost predicate StepKeysOnly(t: Tree, t': Tree, n: NodeId) {
    && |t.nodes| <= |t'.nodes|
    && forall m :: 0 <= m < |t.nodes| && t'.nodes[m].keys != t.nodes[m].keys ==> m == n
  }

  lemma InnerGrowStep(capacity: nat, t: Tree, n: NodeId)
    requires TreeOK(t) && PcOK(capacity, t, InnerGrow(n)) && capacity >= 1
    ensures var (t', pc') := StepInnerGrow(t, n); GoodStep(capacity, t, InnerGrow(n), t', pc')
  {
    hide TreeOK, Evolves, Accounts, SplitInner, LeadsTo, Pending;
    InnerGrowUsable(capacity, t, n);
    InnerGrowAccounts(capacity, t, n);
    SplitInnerKeeps(t, n);
  }

  lemma InnerGrowUsable(capacity: nat, t: Tree, n: NodeId)
    requires TreeOK(t) && PcOK(capacity, t, InnerGrow(n)) && capacity >= 1
    ensures Shapes(t) && Routing(t) && Parents(t) && Usable(t, n)
    ensures |SplitInner(t, n).nodes| > |t.nodes| && !SplitInner(t, n).nodes[|t.nodes|].leaf
  {
  }

  lemma RehomeStep(capacity: nat, t: Tree, pr: Promotion, next: nat)
    requires TreeOK(t) && PcOK(capacity, t, Rehome(pr, next))
    ensures var (t', pc') := StepRehome(t, pr, next); GoodStep(capacity, t, Rehome(pr, next), t', pc')
  {
    var list := t.nodes[pr.right].children;
    if next >= |list| {
      PromotedStep(capacity, t, Rehome(pr, next), pr);
    } else {
      ListedLeads(t, pr.right, next);
      QuietStep(capacity, t, Rehome(pr, next), RehomeChild(pr, next, list[next]));
    }
  }

  // Whatever the list holds now, its holder is the node it is in.
  lemma ListedLeads(t: Tree, n: NodeId, i: nat)
    requires TreeOK(t) && n < |t.nodes| && !t.nodes[n].leaf && i < |t.nodes[n].children|
    ensures LeadsTo(t, n, t.nodes[n].children[i])
  {
    assert RouteOK(t, n, i);
  }

  lemma RehomeChildStep(capacity: nat, t: Tree, pr: Promotion, next: nat, c: NodeId)
    requires TreeOK(t) && PcOK(capacity, t, RehomeChild(pr, next, c))
    ensures var (t', pc') := StepRehomeChild(t, pr, next, c);
      GoodStep(capacity, t, RehomeChild(pr, next, c), t', pc')
  {
    hide TreeOK, Evolves, Accounts, StepRehomeChild, WriteHint, LeadsTo, Pending;
    RehomeUsable(t, pr, next, c);
    RehomeAccounts(capacity, t, pr, next, c);
    WriteHintKeeps(t, c, pr.right);
  }

  lemma RehomeUsable(t: Tree, pr: Promotion, next: nat, c: NodeId)
    requires TreeOK(t) && PendingOK(t, pr) && LeadsTo(t, pr.right, c)
    ensures Shapes(t) && |t.par| == |t.nodes| && c < |t.nodes|
    ensures StepRehomeChild(t, pr, next, c) == (WriteHint(t, c, pr.right), Rehome(pr, next + 1))
    ensures PendingOK(WriteHint(t, c, pr.right), pr)
    ensures WriteHint(t, c, pr.right).nodes[pr.right].leaf == t.nodes[pr.right].leaf
  {
  }

  lemma RehomeAccounts(capacity: nat, t: Tree, pr: Promotion, next: nat, c: NodeId)
    requires Shapes(t) && |t.par| == |t.nodes| && c < |t.nodes| && PendingOK(t, pr)
    ensures var (t', pc') := StepRehomeChild(t, pr, next, c); Accounts(capacity, t, RehomeChild(pr, next, c), t', pc')
  {
  }

  lemma PromotedStep(capacity: nat, t: Tree, pc: PC, pr: Promotion)
    requires TreeOK(t) && PcOK(capacity, t, pc) && PendingOK(t, pr)
    requires pc.WantReread? || pc.Rehome?
    requires pc.pr == pr
    ensures GoodStep(capacity, t, pc, t, Promoted(pr, t.nodes[pr.child].hint))
  {
    if t.nodes[pr.child].hint.Some? { assert LeadsTo(t, t.nodes[pr.child].hint.value, pr.child); }
    QuietStep(capacity, t, pc, Promoted(pr, t.nodes[pr.child].hint));
  }

  lemma RootGrowAccounts(capacity: nat, t: Tree, pr: Promotion)
    requires Shapes(t) && |t.par| == |t.nodes| && PcOK(capacity, t, RootGrow(pr)) && capacity >= 1
    ensures var (t', pc') := StepRootGrow(t, pr); Accounts(capacity, t, RootGrow(pr), t', pc')
  {
  }

  lemma RootGrowStep(capacity: nat, t: Tree, pr: Promotion)
    requires TreeOK(t) && PcOK(capacity, t, RootGrow(pr)) && capacity >= 1
    ensures var (t', pc') := StepRootGrow(t, pr); GoodStep(capacity, t, RootGrow(pr), t', pc')
  {
    hide TreeOK, Evolves, Accounts, StepRootGrow, GrowRoot, LeadsTo;
    RootGrowUsable(t, pr);
    RootGrowAccounts(capacity, t, pr);
    GrowRootKeeps(t, pr.sep, pr.right);
  }

  lemma RootGrowUsable(t: Tree, pr: Promotion)
    requires TreeOK(t) && PendingOK(t, pr) && t.root == pr.child
    ensures Shapes(t) && |t.par| == |t.nodes|
    ensures StepRootGrow(t, pr) == (GrowRoot(t, pr.child, pr.sep, pr.right), RootHints(|t.nodes|, [pr.child, pr.right]))
    ensures GrowRoot(t, pr.child, pr.sep, pr.right).root == |t.nodes|
  {
  }

  lemma RootHintAccounts(capacity: nat, t: Tree, top: NodeId, todo: seq<NodeId>)
    requires Shapes(t) && |t.par| == |t.nodes| && todo != [] && todo[0] < |t.nodes|
    ensures var (t', pc') := StepRootHints(t, top, todo); Accounts(capacity, t, RootHints(top, todo), t', pc')
  {
    assert forall c :: c in todo <==> c == todo[0] || c in todo[1..];
  }

  lemma RootHintsStep(capacity: nat, t: Tree, top: NodeId, todo: seq<NodeId>)
    requires TreeOK(t) && PcOK(capacity, t, RootHints(top, todo))
    ensures var (t', pc') := StepRootHints(t, top, todo); GoodStep(capacity, t, RootHints(top, todo), t', pc')
  {
    if todo == [] {
      QuietStep(capacity, t, RootHints(top, todo), Idle);
    } else {
      RootHintStep(capacity, t, top, todo);
    }
  }

  lemma RootHintStep(capacity: nat, t: Tree, top: NodeId, todo: seq<NodeId>)
    requires TreeOK(t) && PcOK(capacity, t, RootHints(top, todo)) && todo != []
    ensures var (t', pc') := StepRootHints(t, top, todo); GoodStep(capacity, t, RootHints(top, todo), t', pc')
  {
    hide TreeOK, Evolves, Accounts, StepRootHints, WriteHint, LeadsTo;
    assert todo[0] in todo;
    RootHintUsable(t, top, todo);
    RootHintAccounts(capacity, t, top, todo);
    WriteHintKeeps(t, todo[0], top);
    LeadsOn(t, WriteHint(t, todo[0], top), top, todo);
  }

  lemma RootHintUsable(t: Tree, top: NodeId, todo: seq<NodeId>)
    requires TreeOK(t) && todo != [] && LeadsTo(t, top, todo[0])
    ensures Shapes(t) && |t.par| == |t.nodes| && todo[0] < |t.nodes|
    ensures StepRootHints(t, top, todo) == (WriteHint(t, todo[0], top), RootHints(top, todo[1..]))
  {
  }

  lemma LeadsOn(t: Tree, t': Tree, h: NodeId, todo: seq<NodeId>)
    requires Evolves(t, t') && todo != [] && forall c :: c in todo ==> LeadsTo(t, h, c)
    ensures forall c :: c in todo[1..] ==> LeadsTo(t', h, c)
  {
    forall c | c in todo[1..] ensures LeadsTo(t', h, c) { assert c in todo; }
  }

  // Taking a mutex, or finishing.
  lemma AcquireStep(capacity: nat, t: Tree, pc: PC, call: Call)
    requires TreeOK(t) && PcOK(capacity, t, pc) && capacity >= 1
    requires pc.Idle? || pc.Want? || pc.LeafWantGrow? || pc.WantParent? || pc.InnerWantGrow?
             || pc.WantRootCheck? || pc.RootWantGrow? || pc.Done?
    ensures var (t', pc') := StepThread(capacity, t, pc, call); GoodStep(capacity, t, pc, t', pc')
  {
    hide TreeOK, GoodStep, CursorOK, LeadsTo, Pending, ScanComplete;
    if pc.Want? || pc.WantParent? {
      AcquireNode(capacity, t, pc, call);
    } else if pc.LeafWantGrow? || pc.InnerWantGrow? || pc.RootWantGrow? {
      AcquireGrow(capacity, t, pc, call);
    } else {
      AcquireNone(capacity, t, pc, call);
    }
  }

  lemma AcquireNode(capacity: nat, t: Tree, pc: PC, call: Call)
    requires TreeOK(t) && PcOK(capacity, t, pc) && (pc.Want? || pc.WantParent?)
    ensures var (t', pc') := StepThread(capacity, t, pc, call); GoodStep(capacity, t, pc, t', pc')
  {
    hide TreeOK, GoodStep, CursorOK, LeadsTo, Pending;
    QuietStep(capacity, t, pc, StepThread(capacity, t, pc, call).1);
  }

  lemma AcquireGrow(capacity: nat, t: Tree, pc: PC, call: Call)
    requires TreeOK(t) && PcOK(capacity, t, pc) && (pc.LeafWantGrow? || pc.InnerWantGrow? || pc.RootWantGrow?)
    ensures var (t', pc') := StepThread(capacity, t, pc, call); GoodStep(capacity, t, pc, t', pc')
  {
    hide TreeOK, GoodStep, Pending;
    QuietStep(capacity, t, pc, StepThread(capacity, t, pc, call).1);
  }

  lemma AcquireNone(capacity: nat, t: Tree, pc: PC, call: Call)
    requires TreeOK(t) && PcOK(capacity, t, pc) && (pc.Idle? || pc.WantRootCheck? || pc.Done?)
    ensures var (t', pc') := StepThread(capacity, t, pc, call); GoodStep(capacity, t, pc, t', pc')
  {
    hide GoodStep, Pending, ScanComplete;
    if pc.Idle? && call.CallRange? && call.lo > call.hi { EmptyRange(t, Begin(t, call).op); }
    QuietStep(capacity, t, pc, StepThread(capacity, t, pc, call).1);
  }

  lemma EmptyRange(t: Tree, op: Op)
    requires op.Scan? && op.lo > op.hi && op.out == [] && op.start <= |t.log|
    ensures ScanComplete(t, op)
  {
  }

  lemma WantRootStep(capacity: nat, t: Tree, op: Op)
    requires TreeOK(t) && PcOK(capacity, t, WantRoot(op))
    ensures GoodStep(capacity, t, WantRoot(op), t, Want(op, None, t.root))
  {
    if op.Scan? && t.nodes[t.root].leaf { FirstLeafCursor(t, op, t.root); }
    QuietStep(capacity, t, WantRoot(op), Want(op, None, t.root));
  }

  lemma RereadStep(capacity: nat, t: Tree, pr: Promotion)
    requires TreeOK(t) && PcOK(capacity, t, WantReread(pr))
    ensures var (t', pc') := StepReread(t, pr); GoodStep(capacity, t, WantReread(pr), t', pc')
  {
    hide GoodStep;
    PromotedStep(capacity, t, WantReread(pr), pr);
  }

  lemma NeverAtFault(capacity: nat, t: Tree, pc: PC)
    requires PcOK(capacity, t, pc)
    ensures !pc.Fault?
  {
  }

  lemma ThreadStep(capacity: nat, t: Tree, pc: PC, call: Call)
    requires TreeOK(t) && PcOK(capacity, t, pc) && Fits(capacity, t, pc) && capacity >= 1
    ensures var (t', pc') := StepThread(capacity, t, pc, call); GoodStep(capacity, t, pc, t', pc')
  {
    hide GoodStep, TreeOK, PcOK, Fits, StepAt, StepLeafGrow, StepAtParent, StepSpliced, StepInnerGrow, StepRehome,
      StepRehomeChild, StepRootGrow, StepReread, StepRootHints;
    NeverAtFault(capacity, t, pc);
    match pc
    case WantRoot(op) => WantRootStep(capacity, t, op);
    case At(op, n) => AtStep(capacity, t, op, n);
    case LeafGrow(n) => LeafGrowStep(capacity, t, n);
    case AtParent(pr, n) => AtParentStep(capacity, t, pr, n);
    case WantSpliced(r, n) => SplicedStep(capacity, t, r, n);
    case InnerGrow(n) => InnerGrowStep(capacity, t, n);
    case Rehome(pr, next) => RehomeStep(capacity, t, pr, next);
    case RehomeChild(pr, next, c) => RehomeChildStep(capacity, t, pr, next, c);
    case RootGrow(pr) => RootGrowStep(capacity, t, pr);
    case WantReread(pr) => RereadStep(capacity, t, pr);
    case RootHints(top, todo) => RootHintsStep(capacity, t, top, todo);
    case _ => AcquireStep(capacity, t, pc, call);
  }
}
