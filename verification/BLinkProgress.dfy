/** Progress of the retry loop of `insert`: a thread that finds neither a hint nor itself at the
    root yields and looks again. Whoever it waits for is not in that loop, and gets on. */
module BLinkProgress {
  import opened Basics
  import opened TreeKeys
  import opened BLinkTree
  import opened BLinkThreads
  import opened BLinkInvariant
  import opened BLinkSteps
  import opened BLinkTheorems
  import opened BLinkOrder

  // Thread t goes round the retry loop: its child has no hint yet and is not the root.
  ghost predicate Spins(s: State, t: nat) {
    && t < |s.pcs| && (s.pcs[t].WantRootCheck? || s.pcs[t].WantReread?)
    && s.pcs[t].pr.child < |s.tree.nodes|
    && s.tree.nodes[s.pcs[t].pr.child].hint.None? && s.tree.root != s.pcs[t].pr.child
  }

  // Thread u owes what thread t is waiting for: the splice of its child, or its hint.
  ghost predicate OwesTo(s: State, u: nat, t: nat) {
    && Spins(s, t) && u < |s.pcs|
    && (Owes(s.pcs[u]) == Some(s.pcs[t].pr.child) || OwedHint(s.pcs[u], s.pcs[t].pr.child))
  }

  ghost predicate SpinChain(s: State, ts: seq<nat>) {
    && |ts| >= 2 && (forall k :: 0 <= k < |ts| - 1 ==> OwesTo(s, ts[k + 1], ts[k]))
    && !Spins(s, ts[|ts| - 1])
  }

  ghost predicate WaitChain(s: State, ws: seq<nat>) {
    ws != [] && forall k :: 0 <= k < |ws| - 1 ==> Blocks(s, ws[k + 1], ws[k])
  }

  // The debtor of a spinning thread.
  lemma Debtor(s: State, t: nat) returns (u: nat)
    requires OrderInv(s) && Spins(s, t)
    ensures OwesTo(s, u, t)
    ensures Spins(s, u) ==> s.pcs[u].pr.child < s.pcs[t].pr.child
  {
    hide TreeOK, PcOK, ThreadsOK, Exclusive, SizesOK, OwesDistinct, Neighbours, Left;
    var c := s.pcs[t].pr.child;
    assert |s.tree.par| == |s.tree.nodes|;
    if s.tree.par[c].None? {
      u :| 0 <= u < |s.pcs| && Owes(s.pcs[u]) == Some(c);
    } else {
      u :| 0 <= u < |s.pcs| && OwedHint(s.pcs[u], c);
    }
    if Spins(s, u) {
      assert Carried(s.pcs[u]) == Some(s.pcs[u].pr) && s.pcs[u].pr.right == c;
      assert FromChild(s.tree, s.pcs[u].pr);
      assert OriginOK(s.tree, c);
    }
  }

  lemma {:induction false} EndOfSpins(s: State, t: nat) returns (ts: seq<nat>)
    requires OrderInv(s) && Spins(s, t)
    ensures SpinChain(s, ts) && ts[0] == t
    decreases s.pcs[t].pr.child
  {
    hide OrderInv, OwesTo;
    var u := Debtor(s, t);
    if Spins(s, u) {
      var rest := EndOfSpins(s, u);
      ts := [t] + rest;
      forall k | 0 <= k < |ts| - 1 ensures OwesTo(s, ts[k + 1], ts[k]) {
        if k > 0 { assert OwesTo(s, rest[(k - 1) + 1], rest[k - 1]); }
      }
    } else {
      ts := [t, u];
    }
  }

  // Along the waits from a thread: someone who can step, and holds what is waited for.
  lemma {:induction false} EndOfWaits(s: State, t: nat) returns (ws: seq<nat>)
    requires Inv(s) && t < |s.pcs| && !s.pcs[t].Fault?
    ensures WaitChain(s, ws) && ws[0] == t && Ready(s, ws[|ws| - 1])
    decreases if Waits(s.pcs[t]).Some? then |Below(s.tree, Waits(s.pcs[t]).value)| + 1 else 0
  {
    hide TreeOK, PcOK, Exclusive, SizesOK, OwesDistinct, DebtsKnown, Below, Precedes, Holds, Waits;
    if Waits(s.pcs[t]).None? || Free(s, Waits(s.pcs[t]).value) {
      return [t];
    }
    var w := Waits(s.pcs[t]).value;
    var b: nat :| b < |s.pcs| && w in Holds(s.pcs[b]);
    assert PcOK(s.capacity, s.tree, s.pcs[b]);
    NeverAtFault(s.capacity, s.tree, s.pcs[b]);
    if Waits(s.pcs[b]).Some? {
      WaitsDownOrRight(s.capacity, s.tree, s.pcs[b], w);
      BelowShrinks(s.tree, Waits(s.pcs[b]).value, w);
    }
    var rest := EndOfWaits(s, b);
    ws := [t] + rest;
    forall k | 0 <= k < |ws| - 1 ensures Blocks(s, ws[k + 1], ws[k]) {
      if k > 0 { assert Blocks(s, rest[(k - 1) + 1], rest[k - 1]); }
    }
  }

  // Who spins, or is idle, or done, holds nothing, and so blocks nobody.
  lemma HoldsNothing(s: State, t: nat)
    requires t < |s.pcs| && (Spins(s, t) || s.pcs[t].Idle? || s.pcs[t].Done?)
    ensures Holds(s.pcs[t]) == {} && forall u :: !Blocks(s, t, u)
  {
  }

  /** While a thread spins, there is one that does not and that owes, directly or through other
      spinning threads, the hint or the splice it waits for; and along the mutexes that one
      waits for there is a thread, not spinning either, that can step. */
  lemma SpinnerIsServed(states: seq<State>, i: nat, t: nat) returns (ts: seq<nat>, ws: seq<nat>)
    requires Run(states) && states[0].capacity >= 1 && i < |states| && Spins(states[i], t)
    ensures SpinChain(states[i], ts) && ts[0] == t
    ensures WaitChain(states[i], ws) && ws[0] == ts[|ts| - 1]
    ensures Works(states[i], ws[|ws| - 1])
  {
    hide TreeOK, PcOK, Exclusive, SizesOK, OwesDistinct, Neighbours, Left, Run, Origins;
    RunKeepsOrderInv(states, i);
    var s := states[i];
    ts := EndOfSpins(s, t);
    var u := ts[|ts| - 1];
    assert OwesTo(s, ts[(|ts| - 2) + 1], ts[|ts| - 2]);
    ws := WorkerAlong(s, u);
  }

  // Thread t can step, and does more than go round the retry loop.
  ghost predicate Works(s: State, t: nat) {
    Ready(s, t) && !Spins(s, t) && !s.pcs[t].Idle? && !s.pcs[t].Done?
  }

  lemma WorkerAlong(s: State, u: nat) returns (ws: seq<nat>)
    requires Inv(s) && u < |s.pcs| && !Spins(s, u) && !s.pcs[u].Idle? && !s.pcs[u].Done?
    ensures WaitChain(s, ws) && ws[0] == u && Works(s, ws[|ws| - 1])
  {
    hide TreeOK, PcOK, Exclusive, SizesOK, OwesDistinct, DebtsKnown;
    assert PcOK(s.capacity, s.tree, s.pcs[u]);
    NeverAtFault(s.capacity, s.tree, s.pcs[u]);
    ws := EndOfWaits(s, u);
    var w := ws[|ws| - 1];
    if |ws| > 1 {
      assert Blocks(s, ws[(|ws| - 2) + 1], ws[|ws| - 2]);
      if Spins(s, w) || s.pcs[w].Idle? || s.pcs[w].Done? { HoldsNothing(s, w); }
    }
  }

  /** While any operation is under way, some thread can do work: it can step, and it is not
      going round the retry loop. */
  lemma SomeoneWorks(states: seq<State>, i: nat, t: nat) returns (w: nat)
    requires Run(states) && states[0].capacity >= 1 && i < |states|
    requires t < |states[i].pcs| && !states[i].pcs[t].Idle? && !states[i].pcs[t].Done?
    ensures Works(states[i], w)
  {
    hide Inv, Run;
    RunKeepsInv(states, i);
    if Spins(states[i], t) {
      var ts, ws := SpinnerIsServed(states, i, t);
      w := ws[|ws| - 1];
    } else {
      var ws := WorkerAlong(states[i], t);
      w := ws[|ws| - 1];
    }
  }
}
