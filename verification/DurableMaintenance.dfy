/** The calls that are about durability itself: `sync`, `checkpoint`, and the checkpoints that
    mutations make of their own accord. */
module DurableMaintenance {
  import opened Basics
  import opened WalRecords
  import opened DurableThreads
  import opened DurableLog
  import opened DurableInvariant
  import opened DurableTheorems
  import opened DurableCalls

  // ----- operations that no crash takes away -----

  // On stable storage, in the log or in the snapshot.
  ghost predicate Covered(s: State, r: Rec) { r in s.sh.hist && r.lsn <= Max(s.sh.stable, s.sh.snap.lsn) }

  lemma SnapForward(sh: Shared, pc: PC, c: Choice)
    requires LogOK(sh)
    ensures StepThread(sh, pc, c).0.snap.lsn >= sh.snap.lsn
  {
    hide Apply, Truncated, Increasing, Tail, Below;
  }

  lemma StepCovered(s: State, t: nat, c: Choice, r: Rec)
    requires Inv(s) && Ready(s, t) && Covered(s, r)
    ensures Covered(Step(s, t, c), r)
  {
    hide StableOK, SnapOK, RowsOK, LockOK, LeadOK, FlightOK, SleepOK, ThreadsOK, PendingIn, AppliedDurable, RoundsOK,
      IdsOK, StepThread, Step, LogOK;
    StepIs(s, t, c);
    Forward(s.sh, s.pcs[t], c);
    SnapForward(s.sh, s.pcs[t], c);
    StillIn(s.sh.hist, Step(s, t, c).sh.hist, r);
  }

  lemma StillIn(a: seq<Rec>, b: seq<Rec>, r: Rec)
    requires |a| <= |b| && b[..|a|] == a && r in a
    ensures r in b
  {
    var i :| 0 <= i < |a| && a[i] == r;
    assert b[i] == b[..|a|][i];
  }

  lemma CrashCovered(s: State, keep: nat, r: Rec)
    requires Inv(s) && CrashKeeps(s.sh, keep) && Covered(s, r)
    ensures Covered(Crash(s, keep), r)
  {
    hide StableOK, SnapOK, RowsOK, LockOK, LeadOK, FlightOK, SleepOK, ThreadsOK, PendingIn, AppliedDurable, RoundsOK,
      IdsOK, LogOK, Tail, Head, CrashKeeps, Survivors;
    var m := SurvivorsPrefix(s.sh, keep);
    CrashLog(s.sh, keep, m);
    var i :| 0 <= i < |s.sh.hist| && s.sh.hist[i] == r;
    assert i < m;
    assert s.sh.hist[..m][i] == r;
    assert CrashKeeps(s.sh, keep) ==> keep <= |s.sh.wal| by { KeepBound(s.sh, keep); }
    var live := Survivors(s.sh, keep);
    assert live[i].lsn < Max(s.sh.snap.lsn, MaxLsn(s.sh.wal[..keep])) + 1;
  }

  lemma KeepBound(sh: Shared, keep: nat)
    requires CrashKeeps(sh, keep)
    ensures keep <= |sh.wal|
  {
  }

  /** What is on stable storage stays in the history, through every later step and crash, under
      either policy. */
  lemma {:induction false} CoveredStays(states: seq<State>, i: nat, j: nat, r: Rec)
    requires Run(states) && i <= j < |states| && Covered(states[i], r)
    ensures Covered(states[j], r)
    decreases j
  {
    hide Inv, Covered, Init, Crash, CrashKeeps, Step, Allowed, Ready;
    if i < j {
      CoveredStays(states, i, j - 1, r);
      RunKeepsInv(states, j - 1);
      assert Follows(states[j - 1], states[(j - 1) + 1]);
      FollowsCovered(states[j - 1], states[j], r);
    }
  }

  lemma FollowsCovered(s: State, s': State, r: Rec)
    requires Inv(s) && Follows(s, s') && Covered(s, r)
    ensures Covered(s', r)
  {
    hide Inv, Covered, Step, Crash, Allowed, Ready;
    if t: nat, c: Choice :| Ready(s, t) && Allowed(s, t, c) && s' == Step(s, t, c) {
      StepCovered(s, t, c, r);
    } else {
      var keep: nat :| CrashKeeps(s.sh, keep) && s' == Crash(s, keep);
      CrashCovered(s, keep, r);
    }
  }

  // ----- a call of any kind -----

  predicate AnyCall(states: seq<State>, events: seq<Event>, i: nat) {
    && i < |events| && i < |states| && events[i].Took?
    && events[i].thread < |states[i].pcs| && states[i].pcs[events[i].thread].Idle?
  }

  // No crash since call i, and its thread is still at it in state m.
  ghost predicate Within(states: seq<State>, events: seq<Event>, i: nat, m: nat) {
    && AnyCall(states, events, i) && i < m < |states| && m <= |events|
    && (forall n :: i < n < m ==> events[n].Took?)
    && forall n :: i < n <= m ==> Caller(events, i) < |states[n].pcs| && !states[n].pcs[Caller(events, i)].Idle?
  }

  // Call i returns in state m + 1.
  ghost predicate Returns(states: seq<State>, events: seq<Event>, i: nat, m: nat) {
    && Within(states, events, i, m) && m + 1 < |states| && m < |events|
    && events[m].Took? && events[m].thread == Caller(events, i)
    && Caller(events, i) < |states[m + 1].pcs| && states[m + 1].pcs[Caller(events, i)].Idle?
  }

  // Where a sync stands that began when the log reached up to lsn h.
  predicate SyncStands(sh: Shared, pc: PC, h: nat) {
    match pc
    case Capture(goal) => goal.ForCaller? && sh.highest >= h
    case Fsync(goal, target) => goal.ForCaller? && target >= h
    case Synced(goal, target) => goal.ForCaller? && target >= h && sh.stable >= h
    case _ => false
  }

  // Where a checkpoint stands that was asked for when n was the next lsn.
  predicate CheckpointStands(sh: Shared, pc: PC, n: nat) {
    sh.nextLsn >= n &&
    match pc
    case CkAppend(lsn) => sh.snap.lsn + 1 >= n
    case Capture(goal) => goal.ForCheckpoint? && sh.snap.lsn + 1 >= n
    case Fsync(goal, _) => goal.ForCheckpoint? && sh.snap.lsn + 1 >= n
    case Synced(goal, _) => goal.ForCheckpoint? && sh.snap.lsn + 1 >= n
    case CkTruncate(_) => sh.snap.lsn + 1 >= n
    case CkDone(_) => sh.snap.lsn + 1 >= n
    case _ => pc.CkWantWrite? || pc.CkDrain? || pc.CkDrainWait? || pc.CkSave?
  }

  predicate CallStands(call: Call, before: Shared, sh: Shared, pc: PC) {
    match call
    case CallSync => SyncStands(sh, pc, before.highest)
    case CallCheckpoint => CheckpointStands(sh, pc, before.nextLsn)
    case CallOp(_) => true
  }

  // What such a call has brought about when it returns.
  predicate CallDone(call: Call, before: Shared, sh: Shared) {
    match call
    case CallSync => sh.stable >= before.highest
    case CallCheckpoint => sh.snap.lsn + 1 >= before.nextLsn
    case CallOp(_) => true
  }

  lemma CallStarts(sh: Shared, c: Choice)
    ensures !c.call.CallOp? ==>
      var (sh', pc') := StepThread(sh, Idle, c); sh' == sh && !pc'.Idle? && CallStands(c.call, sh, sh', pc')
  {
  }

  lemma CallStep(call: Call, before: Shared, sh: Shared, pc: PC, c: Choice)
    requires LogOK(sh) && !call.CallOp? && CallStands(call, before, sh, pc)
    ensures var (sh', pc') := StepThread(sh, pc, c);
      if pc'.Idle? then CallDone(call, before, sh') else CallStands(call, before, sh', pc')
  {
    hide Apply, Truncated, Increasing, Tail, Below;
    SnapForward(sh, pc, c);
  }

  lemma CallBeside(call: Call, before: Shared, sh: Shared, sh': Shared, pc: PC, pc': PC)
    requires CallStands(call, before, sh, pc) && !call.CallOp? && (pc' == pc || pc' == Wake(pc))
    requires sh'.highest >= sh.highest && sh'.stable >= sh.stable && sh'.nextLsn >= sh.nextLsn
    requires sh'.snap.lsn >= sh.snap.lsn
    ensures CallStands(call, before, sh', pc')
  {
  }

  lemma {:induction false} CallGoesOn(states: seq<State>, events: seq<Event>, i: nat, m: nat)
    requires Labelled(states, events) && Within(states, events, i, m) && !events[i].choice.call.CallOp?
    ensures CallStands(events[i].choice.call, states[i].sh, states[m].sh, states[m].pcs[Caller(events, i)])
    decreases m
  {
    hide Labelled, Inv, Ready, Allowed, Stepped, StepThread, Step, CallStands;
    var t, call, p := Caller(events, i), events[i].choice.call, m - 1;
    Sizes(states, events);
    LabelledStep(states, events, p);
    var s, s', u, c := states[p], states[m], events[p].thread, events[p].choice;
    SteppedSelf(s, s', u, c);
    if p == i {
      CallStarts(s.sh, c);
    } else {
      assert Within(states, events, i, p);
      CallGoesOn(states, events, i, p);
      LogIsOK(s);
      if u == t {
        CallStep(call, states[i].sh, s.sh, s.pcs[t], c);
      } else {
        Forward(s.sh, s.pcs[u], c);
        SnapForward(s.sh, s.pcs[u], c);
        OthersBeside(s, s', u, c, t);
        CallBeside(call, states[i].sh, s.sh, s'.sh, s.pcs[t], s'.pcs[t]);
      }
    }
  }

  lemma LogIsOK(s: State)
    requires Inv(s)
    ensures LogOK(s.sh)
  {
  }

  lemma OthersBeside(s: State, s': State, u: nat, c: Choice, t: nat)
    requires Stepped(s, s', u, c) && t < |s.pcs| && t != u
    ensures s'.pcs[t] == s.pcs[t] || s'.pcs[t] == Wake(s.pcs[t])
  {
    hide StepThread;
    assert Beside(s.pcs[t], s'.pcs[t]);
  }

  /** When a sync or a checkpoint returns, every operation that was logged before the call is on
      stable storage: in the log after a sync, in the snapshot after a checkpoint. */
  lemma CallCovers(states: seq<State>, events: seq<Event>, i: nat, m: nat, r: Rec)
    requires Labelled(states, events) && Returns(states, events, i, m) && !events[i].choice.call.CallOp?
    requires r in states[i].sh.hist
    ensures Covered(states[m + 1], r)
    ensures events[i].choice.call.CallCheckpoint? ==> r.lsn <= states[m + 1].sh.snap.lsn
  {
    hide Labelled, Inv, Ready, Allowed, Stepped, StepThread, Step, CallStands;
    var t, call := Caller(events, i), events[i].choice.call;
    CallGoesOn(states, events, i, m);
    LabelledStep(states, events, m);
    SteppedSelf(states[m], states[m + 1], t, events[m].choice);
    LogIsOK(states[m]);
    CallStep(call, states[i].sh, states[m].sh, states[m].pcs[t], events[m].choice);
    LabelledStep(states, events, i);
    LoggedBelow(states[i], r);
    Ahead(states, events, i, m + 1, r);
  }

  lemma LoggedBelow(s: State, r: Rec)
    requires Inv(s) && r in s.sh.hist
    ensures r.lsn < s.sh.nextLsn && r.lsn <= Max(s.sh.highest, s.sh.snap.lsn)
  {
    hide StableOK, SnapOK, RowsOK, LockOK, LeadOK, FlightOK, SleepOK, ThreadsOK, PendingIn, AppliedDurable, RoundsOK,
      IdsOK, Head, Tail;
    if r.lsn > s.sh.snap.lsn {
      InTail(s.sh.hist, s.sh.snap.lsn, r);
      TailMembers(s.sh.wal, s.sh.snap.lsn);
      assert r in s.sh.wal;
    }
  }

  lemma {:induction false} InTail(recs: seq<Rec>, l: nat, r: Rec)
    requires r in recs && r.lsn > l
    ensures r in Tail(recs, l)
  {
    var n := |recs| - 1;
    assert recs == recs[..n] + [recs[n]];
    if r != recs[n] { InTail(recs[..n], l, r); }
  }

  // Without a crash nothing is taken back.
  lemma {:induction false} Ahead(states: seq<State>, events: seq<Event>, i: nat, j: nat, r: Rec)
    requires Labelled(states, events) && i <= j <= |events| && forall n :: i <= n < j ==> events[n].Took?
    requires r in states[i].sh.hist
    ensures j < |states| && r in states[j].sh.hist && states[j].sh.snap.lsn >= states[i].sh.snap.lsn
    decreases j
  {
    hide Labelled, Inv, Ready, Allowed, Stepped, StepThread, Step;
    Sizes(states, events);
    if i < j {
      Ahead(states, events, i, j - 1, r);
      LabelledStep(states, events, j - 1);
      var s, t, c := states[j - 1], events[j - 1].thread, events[j - 1].choice;
      SteppedSelf(s, states[j], t, c);
      LogIsOK(s);
      Forward(s.sh, s.pcs[t], c);
      SnapForward(s.sh, s.pcs[t], c);
      StillIn(s.sh.hist, states[j].sh.hist, r);
    }
  }

  // ----- the lazy flush -----

  // The thread is in its flush, from event n, which begins it, to state m: the interval had
  // passed and nobody was syncing.
  ghost predicate Flushing(states: seq<State>, events: seq<Event>, n: nat, m: nat) {
    && n < m < |states| && m <= |events| && events[n].Took? && events[n].choice.due
    && events[n].thread < |states[n].pcs| && states[n].pcs[events[n].thread].Flush? && !states[n].sh.syncing
    && (forall k :: n < k < m ==> events[k].Took?)
    && forall k :: n < k < m ==> events[n].thread < |states[k].pcs| && !states[k].pcs[events[n].thread].Finish?
  }

  predicate FlushStands(sh: Shared, pc: PC, h: nat) {
    match pc
    case Capture(goal) => goal.ForFlush? && sh.highest >= h
    case Fsync(goal, target) => goal.ForFlush? && target >= h
    case Synced(goal, target) => goal.ForFlush? && target >= h && sh.stable >= h
    case Finish(_) => sh.stable >= h
    case _ => false
  }

  lemma FlushStarts(sh: Shared, pc: PC, c: Choice)
    requires pc.Flush? && c.due && !sh.syncing
    ensures FlushStands(StepThread(sh, pc, c).0, StepThread(sh, pc, c).1, sh.highest)
  {
  }

  lemma FlushStep(sh: Shared, pc: PC, c: Choice, h: nat)
    requires FlushStands(sh, pc, h) && !pc.Finish?
    ensures FlushStands(StepThread(sh, pc, c).0, StepThread(sh, pc, c).1, h)
  {
    hide Apply, Truncated;
  }

  lemma FlushBeside(sh: Shared, sh': Shared, pc: PC, pc': PC, h: nat)
    requires FlushStands(sh, pc, h) && (pc' == pc || pc' == Wake(pc))
    requires sh'.highest >= sh.highest && sh'.stable >= sh.stable
    ensures FlushStands(sh', pc', h)
  {
  }

  lemma {:induction false} FlushGoesOn(states: seq<State>, events: seq<Event>, n: nat, m: nat)
    requires Labelled(states, events) && Flushing(states, events, n, m)
    ensures events[n].thread < |states[m].pcs|
    ensures FlushStands(states[m].sh, states[m].pcs[events[n].thread], states[n].sh.highest)
    decreases m
  {
    hide Labelled, Inv, Ready, Allowed, Stepped, StepThread, Step, FlushStands;
    var t, p, h := events[n].thread, m - 1, states[n].sh.highest;
    Sizes(states, events);
    LabelledStep(states, events, p);
    var s, s', u, c := states[p], states[m], events[p].thread, events[p].choice;
    SteppedSelf(s, s', u, c);
    if p == n {
      FlushStarts(s.sh, s.pcs[t], c);
    } else {
      assert Flushing(states, events, n, p);
      FlushGoesOn(states, events, n, p);
      if u == t {
        FlushStep(s.sh, s.pcs[t], c, h);
      } else {
        Forward(s.sh, s.pcs[u], c);
        OthersBeside(s, s', u, c, t);
        FlushBeside(s.sh, s'.sh, s.pcs[t], s'.pcs[t], h);
      }
    }
  }

  /** Under the relaxed policy, a mutation that finds the flush interval passed, and nobody
      syncing, has every operation that was logged by then, its own among them, on stable
      storage before it is done. */
  lemma FlushCovers(states: seq<State>, events: seq<Event>, n: nat, m: nat, r: Rec)
    requires Labelled(states, events) && Flushing(states, events, n, m) && r in states[n].sh.hist
    requires events[n].thread < |states[m].pcs| && states[m].pcs[events[n].thread].Finish?
    ensures Covered(states[m], r)
  {
    hide Labelled, Inv, Ready, Allowed, Stepped, Step;
    FlushGoesOn(states, events, n, m);
    LabelledStep(states, events, n);
    LoggedBelow(states[n], r);
    Ahead(states, events, n, m, r);
  }

  // ----- how often mutations make a checkpoint -----

  // The thread is to make a checkpoint when its operation is done.
  predicate OwesCheckpoint(pc: PC) {
    match pc
    case Commit(_, ckpt) => ckpt
    case CommitWait(_, ckpt) => ckpt
    case Capture(goal) => (goal.ForCommit? || goal.ForFlush?) && goal.ckpt
    case Fsync(goal, _) => (goal.ForCommit? || goal.ForFlush?) && goal.ckpt
    case Synced(goal, _) => (goal.ForCommit? || goal.ForFlush?) && goal.ckpt
    case ApplyRec(_, ckpt) => ckpt
    case Flush(ckpt) => ckpt
    case Finish(ckpt) => ckpt
    case _ => false
  }

  // It goes on owing it until it sets out to make one.
  lemma OwesUntilMade(sh: Shared, pc: PC, c: Choice)
    requires OwesCheckpoint(pc)
    ensures var pc' := StepThread(sh, pc, c).1; OwesCheckpoint(pc') || (pc.Finish? && pc'.CkWantWrite?)
    ensures OwesCheckpoint(Wake(pc))
  {
  }

  // Event n ends the serial prefix of an operation.
  predicate Takeoff(states: seq<State>, events: seq<Event>, n: nat) {
    n < |events| && n < |states| && events[n].Took? && events[n].thread < |states[n].pcs| &&
    states[n].pcs[events[n].thread].Enter?
  }

  // And its thread is then to make a checkpoint.
  predicate OwingTakeoff(states: seq<State>, events: seq<Event>, n: nat) {
    Takeoff(states, events, n) && n + 1 < |states| && events[n].thread < |states[n + 1].pcs| &&
    OwesCheckpoint(states[n + 1].pcs[events[n].thread])
  }

  function Takeoffs(states: seq<State>, events: seq<Event>, i: nat, m: nat): nat
    requires i <= m
    decreases m - i
  {
    if i == m then 0 else Takeoffs(states, events, i, m - 1) + if Takeoff(states, events, m - 1) then 1 else 0
  }

  function OwingTakeoffs(states: seq<State>, events: seq<Event>, i: nat, m: nat): nat
    requires i <= m
    decreases m - i
  {
    if i == m then 0
    else OwingTakeoffs(states, events, i, m - 1) + if OwingTakeoff(states, events, m - 1) then 1 else 0
  }

  /** Of the operations since the database was opened, one in every `checkpointOps` makes a
      checkpoint: the counter holds the ones since the last that does. */
  lemma {:induction false} OneInSoMany(states: seq<State>, events: seq<Event>, i: nat, m: nat)
    requires Labelled(states, events) && i <= m < |states| && states[i].sh.opsSince == 0
    requires forall n :: i <= n < m ==> events[n].Took?
    ensures var k := Max(1, states[i].sh.checkpointOps);
      && states[m].sh.checkpointOps == states[i].sh.checkpointOps && states[m].sh.opsSince < k
      && Takeoffs(states, events, i, m) == k * OwingTakeoffs(states, events, i, m) + states[m].sh.opsSince
    decreases m
  {
    hide Labelled, Inv, Ready, Allowed, Stepped, StepThread, Step, OwesCheckpoint;
    if i < m {
      Sizes(states, events);
      OneInSoMany(states, events, i, m - 1);
      LabelledStep(states, events, m - 1);
      var s, t, c := states[m - 1], events[m - 1].thread, events[m - 1].choice;
      SteppedSelf(s, states[m], t, c);
      CounterStep(s.sh, s.pcs[t], c);
      var k, done := Max(1, states[i].sh.checkpointOps), OwingTakeoffs(states, events, i, m - 1);
      assert k * (done + 1) == k * done + k;
    }
  }

  lemma CounterStep(sh: Shared, pc: PC, c: Choice)
    ensures var (sh', pc') := StepThread(sh, pc, c);
      && sh'.checkpointOps == sh.checkpointOps && (!pc.Enter? ==> sh'.opsSince == sh.opsSince)
      && (pc.Enter? ==> if OwesCheckpoint(pc') then sh'.opsSince == 0 else sh'.opsSince == sh.opsSince + 1)
      && (pc.Enter? ==> (OwesCheckpoint(pc') <==> sh.opsSince + 1 >= sh.checkpointOps))
  {
    hide Apply, Truncated;
  }
}
