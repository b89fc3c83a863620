/** What callers see. A run here says which thread took each step and with which call, so that
    what a scan emits can be set against the calls of insert that were made, and nothing else. */
module BLinkCalls {
  import opened Basics
  import opened TreeKeys
  import opened BLinkTree
  import opened BLinkThreads
  import opened BLinkInvariant
  import opened BLinkSteps
  import opened BLinkTheorems

  // steps[i] is the thread that took step i and the call it was offered.
  ghost predicate Labelled(states: seq<State>, steps: seq<(nat, Call)>) {
    && |states| == |steps| + 1 && Init(states[0]) && states[0].capacity >= 1
    && forall i :: 0 <= i < |steps| ==>
         Ready(states[i], steps[i].0) && states[i + 1] == Step(states[i], steps[i].0, steps[i].1)
  }

  predicate IdleAt(states: seq<State>, i: nat, t: nat) {
    i < |states| && t < |states[i].pcs| && states[i].pcs[t].Idle?
  }

  // Step i is the call that some thread made then.
  predicate IsCall(states: seq<State>, steps: seq<(nat, Call)>, i: nat) {
    i < |steps| && IdleAt(states, i, steps[i].0)
  }

  // The thread that made call i is still at it in state m.
  ghost predicate During(states: seq<State>, steps: seq<(nat, Call)>, i: nat, m: nat) {
    IsCall(states, steps, i) && i < m < |states| && forall n :: i < n <= m ==> !IdleAt(states, n, steps[i].0)
  }

  // Call i has returned by state m, which is the first in which its thread is idle again.
  ghost predicate Returned(states: seq<State>, steps: seq<(nat, Call)>, i: nat, m: nat) {
    IsCall(states, steps, i) && i + 1 < m < |states| && During(states, steps, i, m - 1) && IdleAt(states, m, steps[i].0)
  }

  // Call i is a scan that has emitted all it will.
  ghost predicate Scanned(states: seq<State>, steps: seq<(nat, Call)>, i: nat, m: nat) {
    && During(states, steps, i, m) && steps[i].1.CallRange?
    && steps[i].0 < |states[m].pcs| && states[m].pcs[steps[i].0].Done?
  }

  // ----- labelled runs are runs -----

  lemma LabelledRuns(states: seq<State>, steps: seq<(nat, Call)>)
    requires Labelled(states, steps)
    ensures Run(states)
  {
    hide Step, Init;
    forall i | 0 <= i < |states| - 1 ensures Follows(states[i], states[i + 1]) {
      var t: nat, call: Call := steps[i].0, steps[i].1;
      assert Ready(states[i], t) && states[i + 1] == Step(states[i], t, call);
    }
  }

  lemma StateIsSound(states: seq<State>, steps: seq<(nat, Call)>, i: nat)
    requires Labelled(states, steps) && i < |states|
    ensures Inv(states[i]) && |states[i].pcs| == |states[0].pcs| && states[i].capacity >= 1
  {
    LabelledRuns(states, steps);
    RunKeepsInv(states, i);
  }

  // ----- writes -----

  // Step w writes an entry.
  predicate Writes(states: seq<State>, w: nat) {
    w + 1 < |states| && |states[w + 1].tree.log| > |states[w].tree.log|
  }

  // What one step does to the log: nothing, or, for a thread at a leaf with an insert, its
  // pair goes to the end.
  predicate AtWrite(pc: PC, pc': PC) {
    pc.At? && pc.op.Ins? && (pc'.Idle? || pc'.LeafWantGrow?)
  }

  lemma StepLog(capacity: nat, t: Tree, pc: PC, call: Call)
    requires TreeOK(t) && PcOK(capacity, t, pc)
    ensures var (t', pc') := StepThread(capacity, t, pc, call);
      t'.log == t.log + if AtWrite(pc, pc') then [(pc.op.key, pc.op.id)] else []
  {
    hide TreeOK, CursorOK, LeadsTo, Pending, StepAt, StepAtParent, StepLeafGrow, StepInnerGrow;
    match pc
    case At(op, n) => AtLog(capacity, t, op, n);
    case LeafGrow(n) => GrowLog(t, n);
    case InnerGrow(n) => GrowLog(t, n);
    case AtParent(pr, n) => ParentLog(t, pr, n);
    case _ =>
  }

  lemma AtLog(capacity: nat, t: Tree, op: Op, n: NodeId)
    requires TreeOK(t) && CursorOK(t, op, n)
    ensures var (t', pc') := StepAt(capacity, t, op, n);
      && t'.log == t.log + (if AtWrite(At(op, n), pc') then [(op.key, op.id)] else [])
      && (AtWrite(At(op, n), pc') || (!pc'.Idle? && OpOf(pc').Some? && SameCall(OpOf(pc').value, op)))
  {
    hide Links, Chains, RouteOK, Distinct, Parents, LeafContents, LeafOrder, Located, RootOK, Hints, Batch;
    assert NodeShape(t.nodes[n]);
    if t.nodes[n].high.Some? && t.nodes[n].high.value < op.Target() { HopKeeps(t, op, n); }
  }

  lemma GrowLog(t: Tree, n: NodeId)
    ensures StepLeafGrow(t, n).0.log == t.log && StepInnerGrow(t, n).0.log == t.log
  {
  }

  lemma ParentLog(t: Tree, pr: Promotion, n: NodeId)
    ensures StepAtParent(t, pr, n).0.log == t.log
  {
  }

  // ----- what a thread is at -----

  // The operation, while its entry is not written or its scan not handed over.
  function OpOf(pc: PC): Option<Op> {
    match pc
    case WantRoot(op) => Some(op)
    case Want(op, _, _) => Some(op)
    case At(op, _) => Some(op)
    case Done(op) => Some(op)
    case _ => None
  }

  // A scan's emissions may differ.
  predicate SameCall(a: Op, b: Op) {
    (a.Ins? && b == a) || (a.Scan? && b.Scan? && b.lo == a.lo && b.hi == a.hi && b.start == a.start)
  }

  // An operation carries out a call made when the log had `size` entries.
  predicate Carries(op: Op, call: Call, size: nat) {
    match op
    case Ins(key, id) => call == CallInsert(key, id)
    case Scan(lo, hi, _, start) => call == CallRange(lo, hi) && start == size
  }

  lemma BeginCarries(capacity: nat, t: Tree, call: Call)
    ensures var (t', pc') := StepThread(capacity, t, Idle, call);
      t' == t && !pc'.Idle? && OpOf(pc').Some? && Carries(OpOf(pc').value, call, |t.log|)
  {
  }

  // A step keeps the operation until the entry is written; afterwards there is none.
  lemma OpStep(capacity: nat, t: Tree, pc: PC, call: Call)
    requires TreeOK(t) && PcOK(capacity, t, pc) && !pc.Idle?
    ensures var (t', pc') := StepThread(capacity, t, pc, call);
      && (OpOf(pc).Some? && !pc.Done? && !AtWrite(pc, pc') ==>
            OpOf(pc').Some? && SameCall(OpOf(pc').value, OpOf(pc).value))
      && (AtWrite(pc, pc') || OpOf(pc).None? ==> OpOf(pc').None?)
      && (pc.Done? ==> pc'.Idle? && pc.op.Scan?)
  {
    hide TreeOK, CursorOK, StepAt;
    if pc.At? { AtLog(capacity, t, pc.op, pc.node); }
  }

  lemma LabelledStep(states: seq<State>, steps: seq<(nat, Call)>, m: nat)
    requires Labelled(states, steps) && m < |steps|
    ensures var t, call := steps[m].0, steps[m].1;
      && t < |states[m].pcs| == |states[m + 1].pcs| && Inv(states[m])
      && TreeOK(states[m].tree) && PcOK(states[m].capacity, states[m].tree, states[m].pcs[t])
      && (states[m + 1].tree, states[m + 1].pcs[t]) ==
           StepThread(states[m].capacity, states[m].tree, states[m].pcs[t], call)
      && forall u :: 0 <= u < |states[m].pcs| && u != t ==> states[m + 1].pcs[u] == states[m].pcs[u]
  {
    hide TreeOK, PcOK, StepThread;
    StateIsSound(states, steps, m);
  }

  // The log only grows.
  lemma {:induction false} LogGrows(states: seq<State>, steps: seq<(nat, Call)>, a: nat, b: nat)
    requires Labelled(states, steps) && a <= b < |states|
    ensures states[a].tree.log <= states[b].tree.log
    decreases b
  {
    hide Labelled, Inv, TreeOK, PcOK, StepThread;
    if a < b {
      LogGrows(states, steps, a, b - 1);
      LabelSizes(states, steps);
      LabelledStep(states, steps, b - 1);
      var s, t := states[b - 1], steps[b - 1].0;
      StepLog(s.capacity, s.tree, s.pcs[t], steps[b - 1].1);
    }
  }

  lemma LabelSizes(states: seq<State>, steps: seq<(nat, Call)>)
    requires Labelled(states, steps)
    ensures |states| == |steps| + 1
  {
  }

  // How far call i has come by state m.
  ghost predicate Progress(states: seq<State>, steps: seq<(nat, Call)>, i: nat, m: nat)
    requires IsCall(states, steps, i) && i < m < |states| && steps[i].0 < |states[m].pcs|
  {
    var t, pc := steps[i].0, states[m].pcs[steps[i].0];
    if OpOf(pc).Some? then
      && Carries(OpOf(pc).value, steps[i].1, |states[i].tree.log|)
      && forall w :: i <= w < m && w < |steps| && steps[w].0 == t ==> !Writes(states, w)
    else
      && steps[i].1.CallInsert?
      && exists w: nat :: WroteFor(states, steps, i, w) && w < m
  }

  // Step w writes the pair of call i, before it returns.
  ghost predicate WroteFor(states: seq<State>, steps: seq<(nat, Call)>, i: nat, w: nat) {
    && During(states, steps, i, w) && w < |steps| && steps[w].0 == steps[i].0 && steps[i].1.CallInsert?
    && w + 1 < |states| && states[w + 1].tree.log == states[w].tree.log + [(steps[i].1.key, steps[i].1.id)]
  }

  lemma {:induction false} CallProgress(states: seq<State>, steps: seq<(nat, Call)>, i: nat, m: nat)
    requires Labelled(states, steps) && During(states, steps, i, m)
    ensures |states[m].pcs| == |states[0].pcs| == |states[i].pcs| && Progress(states, steps, i, m)
    decreases m
  {
    hide Labelled, Inv, TreeOK, PcOK, StepThread, OpOf, Carries, SameCall;
    LabelSizes(states, steps);
    StateIsSound(states, steps, m);
    StateIsSound(states, steps, i);
    var t, p := steps[i].0, m - 1;
    LabelledStep(states, steps, p);
    var s, s', u := states[p], states[m], steps[p].0;
    StepLog(s.capacity, s.tree, s.pcs[u], steps[p].1);
    if p == i {
      BeginCarries(s.capacity, s.tree, steps[i].1);
      NoWriteYet(states, i);
    } else {
      CallProgress(states, steps, i, p);
      if u == t {
        assert !IdleAt(states, p, t) && !IdleAt(states, m, t);
        OpStep(s.capacity, s.tree, s.pcs[t], steps[p].1);
        ProgressStep(states, steps, i, p);
      } else {
        ProgressBeside(states, steps, i, p);
      }
    }
  }

  // A step of the thread itself.
  lemma ProgressStep(states: seq<State>, steps: seq<(nat, Call)>, i: nat, p: nat)
    requires During(states, steps, i, p) && p < |steps| && p + 1 < |states| && steps[p].0 == steps[i].0
    requires steps[i].0 < |states[p].pcs| == |states[p + 1].pcs| && Progress(states, steps, i, p)
    requires var pc, pc' := states[p].pcs[steps[i].0], states[p + 1].pcs[steps[i].0];
      && !pc'.Idle?
      && states[p + 1].tree.log ==
           states[p].tree.log + (if AtWrite(pc, pc') then [(pc.op.key, pc.op.id)] else [])
      && (OpOf(pc).Some? && !pc.Done? && !AtWrite(pc, pc') ==>
            OpOf(pc').Some? && SameCall(OpOf(pc').value, OpOf(pc).value))
      && (AtWrite(pc, pc') || OpOf(pc).None? ==> OpOf(pc').None?)
      && (pc.Done? ==> pc'.Idle?)
    ensures Progress(states, steps, i, p + 1)
  {
    var pc, pc' := states[p].pcs[steps[i].0], states[p + 1].pcs[steps[i].0];
    if OpOf(pc).None? {
      var w: nat :| WroteFor(states, steps, i, w) && w < p;
      assert w < p + 1;
    } else if AtWrite(pc, pc') {
      assert WroteFor(states, steps, i, p);
    }
  }

  // A step of another thread.
  lemma ProgressBeside(states: seq<State>, steps: seq<(nat, Call)>, i: nat, p: nat)
    requires During(states, steps, i, p) && p < |steps| && p + 1 < |states| && steps[p].0 != steps[i].0
    requires steps[i].0 < |states[p].pcs| == |states[p + 1].pcs| && Progress(states, steps, i, p)
    requires states[p + 1].pcs[steps[i].0] == states[p].pcs[steps[i].0]
    ensures Progress(states, steps, i, p + 1)
  {
    hide OpOf, Carries;
    if OpOf(states[p].pcs[steps[i].0]).None? {
      var w: nat :| WroteFor(states, steps, i, w) && w < p;
      assert w < p + 1;
    }
  }

  lemma NoWriteYet(states: seq<State>, i: nat)
    requires i + 1 < |states| && states[i + 1].tree == states[i].tree
    ensures !Writes(states, i)
  {
  }

  // ----- calls -----

  // A thread that is not idle is at some call.
  lemma {:induction false} AtSomeCall(states: seq<State>, steps: seq<(nat, Call)>, t: nat, m: nat) returns (i: nat)
    requires Labelled(states, steps) && m < |states| && t < |states[m].pcs| && !IdleAt(states, m, t)
    ensures During(states, steps, i, m) && steps[i].0 == t
    decreases m
  {
    hide Inv, TreeOK, PcOK, StepThread;
    StateIsSound(states, steps, m);
    assert m > 0;
    LabelledStep(states, steps, m - 1);
    if IdleAt(states, m - 1, t) {
      assert steps[m - 1].0 == t;
      i := m - 1;
    } else {
      StateIsSound(states, steps, m - 1);
      i := AtSomeCall(states, steps, t, m - 1);
    }
  }

  // Only one.
  lemma OneCall(states: seq<State>, steps: seq<(nat, Call)>, i: nat, i': nat, m: nat)
    requires During(states, steps, i, m) && During(states, steps, i', m) && steps[i].0 == steps[i'].0
    ensures i == i'
  {
  }

  // A write is one pair, and made for some call of insert.
  lemma WriteHasCall(states: seq<State>, steps: seq<(nat, Call)>, w: nat) returns (i: nat)
    requires Labelled(states, steps) && w < |steps| && Writes(states, w)
    ensures WroteFor(states, steps, i, w)
  {
    hide Inv, TreeOK, PcOK, StepThread, Carries;
    var t := steps[w].0;
    LabelledStep(states, steps, w);
    var s := states[w];
    StepLog(s.capacity, s.tree, s.pcs[t], steps[w].1);
    i := AtSomeCall(states, steps, t, w);
    CallProgress(states, steps, i, w);
    CarriesInsert(s.pcs[t].op, steps[i].1, |states[i].tree.log|);
  }

  lemma CarriesInsert(op: Op, call: Call, size: nat)
    requires op.Ins? && Carries(op, call, size)
    ensures call == CallInsert(op.key, op.id)
  {
  }

  // A call writes once.
  lemma WritesOnce(states: seq<State>, steps: seq<(nat, Call)>, i: nat, w: nat, w': nat)
    requires Labelled(states, steps) && WroteFor(states, steps, i, w) && WroteFor(states, steps, i, w')
    ensures w == w'
  {
    hide Labelled;
    var a, b := if w < w' then w else w', if w < w' then w' else w;
    if a < b {
      StepsOf(states, steps, b);
      CallProgress(states, steps, i, b);
    }
  }

  // The thread of a write stands at a leaf with its insert.
  lemma StepsOf(states: seq<State>, steps: seq<(nat, Call)>, w: nat)
    requires Labelled(states, steps) && w < |steps| && Writes(states, w)
    ensures steps[w].0 < |states[w].pcs| && OpOf(states[w].pcs[steps[w].0]).Some?
  {
    hide Inv, TreeOK, PcOK, StepThread;
    LabelledStep(states, steps, w);
    var s := states[w];
    StepLog(s.capacity, s.tree, s.pcs[steps[w].0], steps[w].1);
  }

  /** An insert that has returned wrote its pair, once, in between. */
  lemma InsertWritesOnce(states: seq<State>, steps: seq<(nat, Call)>, i: nat, m: nat) returns (w: nat)
    requires Labelled(states, steps) && Returned(states, steps, i, m) && steps[i].1.CallInsert?
    ensures WroteFor(states, steps, i, w) && w < m
    ensures forall w': nat :: WroteFor(states, steps, i, w') ==> w' == w
  {
    hide Labelled, Inv, TreeOK, PcOK, StepThread, Carries;
    LabelSizes(states, steps);
    var t := steps[i].0;
    CallProgress(states, steps, i, m - 1);
    LabelledStep(states, steps, m - 1);
    var s := states[m - 1];
    if OpOf(s.pcs[t]).None? {
      w :| WroteFor(states, steps, i, w) && w < m - 1;
    } else {
      assert !IdleAt(states, m - 1, t) && IdleAt(states, m, t);
      assert steps[m - 1].0 == t;
      StepLog(s.capacity, s.tree, s.pcs[t], steps[m - 1].1);
      OpStep(s.capacity, s.tree, s.pcs[t], steps[m - 1].1);
      NotAScan(s.pcs[t], steps[i].1, |states[i].tree.log|);
      CarriesInsert(s.pcs[t].op, steps[i].1, |states[i].tree.log|);
      w := m - 1;
    }
    forall w': nat | WroteFor(states, steps, i, w') ensures w' == w { WritesOnce(states, steps, i, w, w'); }
  }

  lemma NotAScan(pc: PC, call: Call, size: nat)
    requires OpOf(pc).Some? && Carries(OpOf(pc).value, call, size) && call.CallInsert?
    ensures OpOf(pc).value.Ins?
  {
  }

  // Entry u of the log was written by some step.
  lemma {:induction false} EntryWritten(states: seq<State>, steps: seq<(nat, Call)>, m: nat, u: nat) returns (w: nat)
    requires Labelled(states, steps) && m < |states| && u < |states[m].tree.log|
    ensures w < m && |states[w].tree.log| == u && Writes(states, w)
    decreases m
  {
    hide Inv, TreeOK, PcOK, StepThread;
    assert m > 0;
    if u < |states[m - 1].tree.log| {
      w := EntryWritten(states, steps, m - 1, u);
    } else {
      LabelledStep(states, steps, m - 1);
      var s := states[m - 1];
      StepLog(s.capacity, s.tree, s.pcs[steps[m - 1].0], steps[m - 1].1);
      w := m - 1;
    }
  }

  // ... and by one step only.
  lemma OneWriter(states: seq<State>, steps: seq<(nat, Call)>, w: nat, w': nat)
    requires Labelled(states, steps) && Writes(states, w) && Writes(states, w')
    requires |states[w].tree.log| == |states[w'].tree.log|
    ensures w == w'
  {
    hide Labelled;
    if w < w' { LogGrows(states, steps, w + 1, w'); }
    if w' < w { LogGrows(states, steps, w' + 1, w); }
  }

  // Call i of insert wrote entry u, which is there in state m.
  ghost predicate Wrote(states: seq<State>, steps: seq<(nat, Call)>, i: nat, u: nat, m: nat) {
    exists w: nat :: w < m && WroteFor(states, steps, i, w) && |states[w].tree.log| == u
  }

  // Every entry was passed to some call of insert.
  lemma EntryHasCall(states: seq<State>, steps: seq<(nat, Call)>, m: nat, u: nat) returns (i: nat)
    requires Labelled(states, steps) && m < |states| && u < |states[m].tree.log|
    ensures Wrote(states, steps, i, u, m) && i < m && IsCall(states, steps, i)
    ensures steps[i].1 == CallInsert(states[m].tree.log[u].0, states[m].tree.log[u].1)
  {
    hide Labelled;
    LabelSizes(states, steps);
    var w := EntryWritten(states, steps, m, u);
    i := WriteHasCall(states, steps, w);
    LogGrows(states, steps, w + 1, m);
    assert states[w + 1].tree.log[u] == states[m].tree.log[u];
  }

  // Different entries, different calls.
  lemma CallsApart(states: seq<State>, steps: seq<(nat, Call)>, i: nat, u: nat, u': nat, m: nat)
    requires Labelled(states, steps) && Wrote(states, steps, i, u, m) && Wrote(states, steps, i, u', m)
    ensures u == u'
  {
    hide Labelled;
    LabelSizes(states, steps);
    var w: nat :| w < m && WroteFor(states, steps, i, w) && |states[w].tree.log| == u;
    var w': nat :| w' < m && WroteFor(states, steps, i, w') && |states[w'].tree.log| == u';
    WritesOnce(states, steps, i, w, w');
  }

  lemma SameEntry(states: seq<State>, steps: seq<(nat, Call)>, i: nat, i': nat, u: nat, m: nat)
    requires Labelled(states, steps) && Wrote(states, steps, i, u, m) && Wrote(states, steps, i', u, m)
    ensures i == i'
  {
    hide Labelled;
    var w: nat :| w < m && WroteFor(states, steps, i, w) && |states[w].tree.log| == u;
    var w': nat :| w' < m && WroteFor(states, steps, i', w') && |states[w'].tree.log| == u;
    OneWriter(states, steps, w, w');
    OneCall(states, steps, i, i', w);
  }

  // A scan is about the bounds it was called with, from when it was called.
  lemma ScanIsOfCall(states: seq<State>, steps: seq<(nat, Call)>, i: nat, m: nat)
    requires Labelled(states, steps) && Scanned(states, steps, i, m)
    ensures var op := states[m].pcs[steps[i].0].op;
      op.Scan? && steps[i].1 == CallRange(op.lo, op.hi) && op.start == |states[i].tree.log|
  {
    hide Labelled;
    CallProgress(states, steps, i, m);
  }

  // Call a of insert had returned before the scan that is call i, and its key is in the bounds.
  ghost predicate Due(states: seq<State>, steps: seq<(nat, Call)>, a: nat, i: nat) {
    && IsCall(states, steps, a) && IsCall(states, steps, i) && steps[a].1.CallInsert? && steps[i].1.CallRange?
    && steps[i].1.lo <= steps[a].1.key <= steps[i].1.hi
    && exists b: nat :: b <= i && Returned(states, steps, a, b)
  }

  /** The contract of range, in terms of calls alone: what a finished scan has emitted stands in
      the order of keys; each emission is the pair of one call of insert with a key between
      the bounds, a different call for each; and every such call that had returned before the
      scan was called is among them. */
  lemma RangeIsExact(states: seq<State>, steps: seq<(nat, Call)>, i: nat, m: nat) returns (calls: seq<nat>)
    requires Labelled(states, steps) && Scanned(states, steps, i, m)
    ensures steps[i].0 < |states[m].pcs| && states[m].pcs[steps[i].0].op.Scan?
    ensures var out := states[m].pcs[steps[i].0].op.out;
      && |calls| == |out| && Distinct(calls)
      && (forall x, y :: 0 <= x < y < |out| ==> out[x].key <= out[y].key)
      && (forall x :: 0 <= x < |out| ==>
            && calls[x] < m && IsCall(states, steps, calls[x])
            && steps[calls[x]].1 == CallInsert(out[x].key, out[x].id)
            && steps[i].1.lo <= out[x].key <= steps[i].1.hi)
    ensures forall a: nat :: Due(states, steps, a, i) ==> a in calls
  {
    hide Labelled, Returned, WroteFor;
    var t := steps[i].0;
    ScanIsOfCall(states, steps, i, m);
    LabelledRuns(states, steps);
    LabelledCapacity(states, steps);
    LabelSizes(states, steps);
    FinishedScanIsExact(states, m, t);
    var op, log := states[m].pcs[t].op, states[m].tree.log;
    calls := [];
    for x := 0 to |op.out|
      invariant |calls| == x && Distinct(calls)
      invariant forall y :: 0 <= y < x ==>
        && Wrote(states, steps, calls[y], op.out[y].uid, m) && calls[y] < m && IsCall(states, steps, calls[y])
        && steps[calls[y]].1 == CallInsert(op.out[y].key, op.out[y].id)
    {
      var c := EntryHasCall(states, steps, m, op.out[x].uid);
      forall y | 0 <= y < x ensures calls[y] != c {
        if calls[y] == c { CallsApart(states, steps, c, op.out[y].uid, op.out[x].uid, m); }
      }
      calls := calls + [c];
    }
    forall a: nat | Due(states, steps, a, i) ensures a in calls {
      var b: nat :| b <= i && Returned(states, steps, a, b);
      var u := ReturnedWrote(states, steps, a, b, i, m);
      var x :| 0 <= x < |op.out| && op.out[x].uid == u;
      SameEntry(states, steps, a, calls[x], u, m);
    }
  }

  lemma LabelledCapacity(states: seq<State>, steps: seq<(nat, Call)>)
    requires Labelled(states, steps)
    ensures states[0].capacity >= 1
  {
  }

  // What an insert that returned by state b wrote is in the log from then on.
  lemma ReturnedWrote(states: seq<State>, steps: seq<(nat, Call)>, a: nat, b: nat, i: nat, m: nat) returns (u: nat)
    requires Labelled(states, steps) && Returned(states, steps, a, b) && b <= i < m < |states|
    requires steps[a].1.CallInsert?
    ensures u < |states[i].tree.log| <= |states[m].tree.log| && Wrote(states, steps, a, u, m)
    ensures states[m].tree.log[u] == (steps[a].1.key, steps[a].1.id)
  {
    hide Labelled;
    var w := InsertWritesOnce(states, steps, a, b);
    u := |states[w].tree.log|;
    LogGrows(states, steps, w + 1, i);
    LogGrows(states, steps, i, m);
    assert states[w + 1].tree.log[u] == states[m].tree.log[u];
  }
}
