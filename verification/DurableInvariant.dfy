/** What holds in every state of the durable database, and why each step and each crash
    keeps it. */
module DurableInvariant {
  import opened Basics
  import opened WalRecords
  import opened DurableThreads
  import opened DurableLog

  // ----- the log, the snapshot and stable storage -----

  ghost predicate LogOK(sh: Shared) {
    && sh.nextLsn > 0 && sh.snap.lsn < sh.nextLsn && sh.highest < sh.nextLsn && sh.durable < sh.nextLsn
    && Increasing(sh.hist) && Below(sh.hist, sh.nextLsn)
    && Increasing(sh.wal) && Below(sh.wal, sh.highest + 1)
    && Tail(sh.wal, sh.snap.lsn) == Tail(sh.hist, sh.snap.lsn)
  }

  // What is reported durable is stable, or in the snapshot.
  ghost predicate StableOK(sh: Shared) {
    sh.stable <= sh.highest && sh.durable <= Max(sh.stable, sh.snap.lsn)
  }

  // The snapshot is the effect of exactly the operations up to its lsn.
  ghost predicate SnapOK(sh: Shared) {
    && sh.snap.rows == Effect(Head(sh.hist, sh.snap.lsn))
    && RowsBelow(sh.snap.rows, sh.snap.nextId)
    && IdsBelow(Head(sh.hist, sh.snap.lsn), sh.snap.nextId) && sh.snap.nextId <= sh.nextId
  }

  ghost predicate IdsOK(s: State) {
    && RowsBelow(s.sh.rows, s.sh.nextId) && IdsBelow(s.sh.hist, s.sh.nextId)
    && (forall t :: 0 <= t < |s.pcs| && Busy(s.pcs[t]).Some? ==> Busy(s.pcs[t]).value < s.sh.nextId)
    && (forall t, u :: 0 <= t < u < |s.pcs| && Busy(s.pcs[t]).Some? ==> Busy(s.pcs[t]) != Busy(s.pcs[u]))
  }

  ghost predicate IsPending(s: State, id: nat) {
    exists t :: 0 <= t < |s.pcs| && Pending(s.pcs[t]).Some? && Pending(s.pcs[t]).value.id == id
  }

  // Applying what is pending, in any order, gives the replay of the whole log: a row
  // with a pending operation is one operation behind, every other row is up to date.
  ghost predicate RowsOK(s: State) {
    var full := Effect(s.sh.hist);
    && (forall t :: 0 <= t < |s.pcs| && Pending(s.pcs[t]).Some? ==>
         var r := Pending(s.pcs[t]).value; Lookup(full, r.id) == RowAfter(Lookup(s.sh.rows, r.id), r.act))
    && (forall id: nat :: !IsPending(s, id) ==> Lookup(full, id) == Lookup(s.sh.rows, id))
  }

  // ----- mutexes, flags and counters -----

  ghost predicate LockOK(s: State) {
    && (forall t, u :: 0 <= t < u < |s.pcs| ==> !(Owns(s.pcs[t]) && Owns(s.pcs[u])))
    && (forall t :: 0 <= t < |s.pcs| && Owns(s.pcs[t]) ==> s.sh.locked)
    && (s.sh.locked ==> exists t :: 0 <= t < |s.pcs| && Owns(s.pcs[t]))
  }

  // At most one thread syncs for everyone.
  ghost predicate LeadOK(s: State) {
    && (forall t, u :: 0 <= t < u < |s.pcs| ==> !(Leads(s.pcs[t]) && Leads(s.pcs[u])))
    && (forall t :: 0 <= t < |s.pcs| && Leads(s.pcs[t]) ==> s.sh.syncing)
    && (s.sh.syncing ==> exists t :: 0 <= t < |s.pcs| && Leads(s.pcs[t]))
  }

  function Flights(pcs: seq<PC>): nat {
    if pcs == [] then 0 else Flights(pcs[..|pcs| - 1]) + (if Flying(pcs[|pcs| - 1]) then 1 else 0)
  }

  ghost predicate FlightOK(s: State) { s.sh.inFlight == Flights(s.pcs) }

  // No wake-up is lost: a sleeper's condition is still to come.
  ghost predicate SleepOK(s: State) {
    forall t :: 0 <= t < |s.pcs| ==>
      && (s.pcs[t].CommitWait? ==> s.sh.syncing)
      && (s.pcs[t].CkDrainWait? ==> s.sh.inFlight > 0)
  }

  // ----- where a thread stands -----

  // A checkpoint past its save knows the snapshot's lsn.
  ghost predicate GoalOK(sh: Shared, goal: Goal) {
    match goal
    case ForCommit(rec, _) => sh.policy.PerOpSync? && rec.lsn <= sh.highest
    case ForFlush(_) => sh.policy.Periodic?
    case ForCaller => true
    case ForCheckpoint(lsn) => lsn == sh.snap.lsn
  }

  ghost predicate PcOK(sh: Shared, pc: PC) {
    match pc
    case Append(rec) =>
      rec.lsn > 0 && rec.lsn + 1 == sh.nextLsn && Below(sh.hist, rec.lsn) && sh.highest < rec.lsn
      && sh.snap.lsn < rec.lsn && !rec.act.Mark?
    case Enter(rec) => rec.lsn <= sh.highest
    case Commit(rec, _) => sh.policy.PerOpSync? && rec.lsn <= sh.highest
    case CommitWait(rec, _) => sh.policy.PerOpSync? && rec.lsn <= sh.highest
    case Capture(goal) => GoalOK(sh, goal)
    case Fsync(goal, target) => GoalOK(sh, goal) && target <= sh.highest
    case Synced(goal, target) => GoalOK(sh, goal) && target <= sh.stable
    case ApplyRec(rec, _) => rec.lsn <= sh.highest && (sh.policy.PerOpSync? ==> rec.lsn <= sh.durable)
    case Flush(_) => sh.policy.Periodic?
    case CkSave => sh.inFlight == 0
    case CkAppend(lsn) => lsn == sh.snap.lsn && lsn + 1 == sh.nextLsn
    case CkTruncate(lsn) => lsn == sh.snap.lsn
    case CkDone(lsn) => lsn == sh.snap.lsn
    case _ => true
  }

  ghost predicate ThreadsOK(s: State) {
    forall t :: 0 <= t < |s.pcs| ==> PcOK(s.sh, s.pcs[t])
  }

  // A logged operation that its thread has still to apply.
  ghost predicate HeldBack(s: State, r: Rec) {
    exists t :: 0 <= t < |s.pcs| && Pending(s.pcs[t]) == Some(r)
  }

  // What is pending is in the log.
  ghost predicate PendingIn(s: State) {
    forall t :: 0 <= t < |s.pcs| && Pending(s.pcs[t]).Some? ==>
      Pending(s.pcs[t]).value in s.sh.hist && !Pending(s.pcs[t]).value.act.Mark?
  }

  // PerOpSync: what is applied is durable.
  ghost predicate AppliedDurable(s: State) {
    s.sh.policy.PerOpSync? ==>
      forall i :: 0 <= i < |s.sh.hist| ==>
        s.sh.hist[i].act.Mark? || s.sh.hist[i].lsn <= s.sh.durable || HeldBack(s, s.sh.hist[i])
  }

  // ----- how many syncs a writer sees -----

  // The leader's sync under way will cover lsn l.
  ghost predicate LeaderCovers(s: State, l: nat) {
    forall t :: 0 <= t < |s.pcs| && Leads(s.pcs[t]) ==>
      match s.pcs[t]
      case Fsync(_, target) => target >= l
      case Synced(_, target) => target >= l
      case _ => true
  }

  ghost predicate RoundsOK(s: State) {
    && |s.rounds| == |s.pcs|
    && forall t :: 0 <= t < |s.pcs| && Pending(s.pcs[t]).Some? ==>
         var l := Pending(s.pcs[t]).value.lsn;
         && s.rounds[t] <= 2
         && (l > s.sh.durable ==> s.rounds[t] <= 1 && (s.rounds[t] == 1 ==> LeaderCovers(s, l)))
  }

  ghost predicate Inv(s: State) {
    && LogOK(s.sh) && StableOK(s.sh) && SnapOK(s.sh) && IdsOK(s) && RowsOK(s)
    && LockOK(s) && LeadOK(s) && FlightOK(s) && SleepOK(s) && ThreadsOK(s)
    && PendingIn(s) && AppliedDurable(s) && RoundsOK(s)
  }

  // ----- one step, thread by thread -----

  lemma WakeKeeps(pc: PC)
    ensures Owns(Wake(pc)) == Owns(pc) && Leads(Wake(pc)) == Leads(pc) && Flying(Wake(pc)) == Flying(pc)
    ensures Pending(Wake(pc)) == Pending(pc) && Busy(Wake(pc)) == Busy(pc)
    ensures Wake(pc) == pc || pc.CommitWait? || pc.CkDrainWait?
  {
  }

  // Another thread, after a step of t.
  ghost predicate Beside(pc: PC, pc': PC) {
    && Owns(pc') == Owns(pc) && Leads(pc') == Leads(pc) && Flying(pc') == Flying(pc)
    && Pending(pc') == Pending(pc) && Busy(pc') == Busy(pc) && (pc' == pc || pc' == Wake(pc))
  }

  // The state after a step: the thread that stepped, and all others beside it.
  ghost predicate Stepped(s: State, s': State, t: nat, c: Choice) {
    && t < |s.pcs| == |s'.pcs|
    && s'.sh == StepThread(s.sh, s.pcs[t], c).0 && s'.pcs[t] == StepThread(s.sh, s.pcs[t], c).1
    && (forall u :: 0 <= u < |s.pcs| && u != t ==> Beside(s.pcs[u], s'.pcs[u]))
    && (forall u :: 0 <= u < |s.pcs| && u != t && !Notifies(s.pcs[t]) ==> s'.pcs[u] == s.pcs[u])
    && (forall u :: 0 <= u < |s.pcs| && u != t && Notifies(s.pcs[t]) ==> s'.pcs[u] == Wake(s.pcs[u]))
  }

  lemma StepIs(s: State, t: nat, c: Choice)
    requires Ready(s, t)
    ensures Stepped(s, Step(s, t, c), t, c)
  {
    var s' := Step(s, t, c);
    forall u | 0 <= u < |s.pcs| && u != t ensures Beside(s.pcs[u], s'.pcs[u]) { WakeKeeps(s.pcs[u]); }
  }

  // ----- mutexes and flags -----

  lemma LockKept(s: State, s': State, t: nat, c: Choice)
    requires Ready(s, t) && Stepped(s, s', t, c) && LockOK(s)
    ensures LockOK(s')
  {
    hide Apply, Truncated, Max;
    assert forall u :: 0 <= u < |s.pcs| && u != t ==> Owns(s'.pcs[u]) == Owns(s.pcs[u]);
    OwnsAfter(s.sh, s.pcs[t], c);
    if s'.sh.locked && !Owns(s'.pcs[t]) {
      var u :| 0 <= u < |s.pcs| && Owns(s.pcs[u]);
      assert Owns(s'.pcs[u]);
    }
  }

  lemma OwnsAfter(sh: Shared, pc: PC, c: Choice)
    requires (WantsWrite(pc) ==> !sh.locked) && (Owns(pc) ==> sh.locked)
    ensures var (sh', pc') := StepThread(sh, pc, c);
      && (Owns(pc') ==> sh'.locked && (Owns(pc) || !sh.locked))
      && (Owns(pc) && !Owns(pc') ==> !sh'.locked)
      && (sh'.locked && !Owns(pc') ==> sh.locked && !Owns(pc))
      && (sh.locked && !Owns(pc) ==> sh'.locked)
  {
    hide Apply, Truncated, Max;
  }

  lemma LeadKept(s: State, s': State, t: nat, c: Choice)
    requires Stepped(s, s', t, c) && LeadOK(s)
    ensures LeadOK(s')
  {
    assert forall u :: 0 <= u < |s.pcs| && u != t ==> Leads(s'.pcs[u]) == Leads(s.pcs[u]);
    LeadsAfter(s.sh, s.pcs[t], c);
    if s'.sh.syncing && !Leads(s'.pcs[t]) {
      var u :| 0 <= u < |s.pcs| && Leads(s.pcs[u]);
      assert Leads(s'.pcs[u]);
    }
  }

  lemma LeadsAfter(sh: Shared, pc: PC, c: Choice)
    requires Leads(pc) ==> sh.syncing
    ensures var (sh', pc') := StepThread(sh, pc, c);
      && (Leads(pc') ==> sh'.syncing && (Leads(pc) || !sh.syncing))
      && (Leads(pc) && !Leads(pc') ==> !sh'.syncing)
      && (sh'.syncing && !Leads(pc') ==> sh.syncing && !Leads(pc))
      && (sh.syncing && !Leads(pc) ==> sh'.syncing)
  {
    hide Apply, Truncated, Max;
  }

  // ----- operations in flight -----

  lemma {:induction false} FlightsSame(a: seq<PC>, b: seq<PC>)
    requires |a| == |b| && forall u :: 0 <= u < |a| ==> Flying(a[u]) == Flying(b[u])
    ensures Flights(a) == Flights(b)
  {
    if a != [] { FlightsSame(a[..|a| - 1], b[..|b| - 1]); }
  }

  lemma {:induction false} FlightsSet(a: seq<PC>, t: nat, pc: PC)
    requires t < |a|
    ensures Flights(a[t := pc]) + (if Flying(a[t]) then 1 else 0) == Flights(a) + (if Flying(pc) then 1 else 0)
  {
    var b := a[t := pc];
    if t == |a| - 1 {
      FlightsSame(a[..|a| - 1], b[..|b| - 1]);
    } else {
      FlightsSet(a[..|a| - 1], t, pc);
      assert b[..|b| - 1] == a[..|a| - 1][t := pc];
    }
  }

  lemma {:induction false} FlightsZero(a: seq<PC>, t: nat)
    requires t < |a| && Flights(a) == 0
    ensures !Flying(a[t])
  {
    if t < |a| - 1 { FlightsZero(a[..|a| - 1], t); }
  }

  lemma FlyingAfter(sh: Shared, pc: PC, c: Choice)
    ensures var (sh', pc') := StepThread(sh, pc, c);
      && (Flying(pc) ==> (if pc.Finish? then !Flying(pc') && (sh.inFlight > 0 ==> sh'.inFlight == sh.inFlight - 1)
                          else Flying(pc') && sh'.inFlight == sh.inFlight))
      && (!Flying(pc) ==> sh'.inFlight == sh.inFlight + (if Flying(pc') then 1 else 0))
  {
    hide Apply, Truncated, Max;
  }

  lemma FlightKept(s: State, s': State, t: nat, c: Choice)
    requires Stepped(s, s', t, c) && FlightOK(s)
    ensures FlightOK(s')
  {
    hide StepThread;
    FlyingAfter(s.sh, s.pcs[t], c);
    FlightsSet(s.pcs, t, s'.pcs[t]);
    FlightsSame(s.pcs[t := s'.pcs[t]], s'.pcs);
    if Flights(s.pcs) == 0 { FlightsZero(s.pcs, t); }
  }

  lemma {:induction false} FlightsSome(a: seq<PC>)
    requires Flights(a) > 0
    ensures exists t :: 0 <= t < |a| && Flying(a[t])
  {
    if !Flying(a[|a| - 1]) {
      FlightsSome(a[..|a| - 1]);
      var t :| 0 <= t < |a| - 1 && Flying(a[..|a| - 1][t]);
      assert Flying(a[t]);
    }
  }

  // ----- sleepers -----

  lemma SleepAfter(sh: Shared, pc: PC, c: Choice)
    ensures var (sh', pc') := StepThread(sh, pc, c);
      && (pc'.CommitWait? ==> sh'.syncing) && (pc'.CkDrainWait? ==> sh'.inFlight > 0)
      && (sh.syncing && !sh'.syncing ==> Notifies(pc))
      && (sh.inFlight > 0 && sh'.inFlight == 0 ==> Notifies(pc))
  {
    hide Apply, Truncated, Max;
  }

  lemma SleepKept(s: State, s': State, t: nat, c: Choice)
    requires Stepped(s, s', t, c) && SleepOK(s)
    ensures SleepOK(s')
  {
    hide StepThread, Notifies;
    SleepAfter(s.sh, s.pcs[t], c);
  }

  // ----- the log -----

  lemma LogKept(sh: Shared, pc: PC, c: Choice)
    requires LogOK(sh) && StableOK(sh) && PcOK(sh, pc)
    ensures LogOK(StepThread(sh, pc, c).0)
  {
    hide LogOK, StableOK, PcOK, StepThread;
    match pc
    case Append(rec) => OpKeepsLog(sh, rec, c);
    case CkAppend(lsn) => MarkKeepsLog(sh, lsn, c);
    case CkSave => SaveKeepsLog(sh, c);
    case CkTruncate(lsn) => TruncateKeepsLog(sh, lsn, c);
    case _ => QuietKeepsLog(sh, pc, c);
  }

  lemma OpKeepsLog(sh: Shared, rec: Rec, c: Choice)
    requires LogOK(sh) && PcOK(sh, Append(rec))
    ensures LogOK(StepThread(sh, Append(rec), c).0)
  {
    hide Increasing, Below, Tail, Log;
    AppendKeepsLog(sh, rec);
  }

  lemma MarkKeepsLog(sh: Shared, lsn: nat, c: Choice)
    requires LogOK(sh) && PcOK(sh, CkAppend(lsn))
    ensures LogOK(StepThread(sh, CkAppend(lsn), c).0)
  {
    hide Increasing, Below, Tail, Log;
    AppendKeepsLog(sh.(nextLsn := sh.nextLsn + 1), Rec(sh.nextLsn, 0, Mark));
  }

  lemma AppendKeepsLog(sh: Shared, rec: Rec)
    requires sh.nextLsn > 0 && sh.snap.lsn < sh.nextLsn && sh.highest < sh.nextLsn && sh.durable < sh.nextLsn
    requires Increasing(sh.hist) && Increasing(sh.wal) && Below(sh.wal, sh.highest + 1)
    requires Tail(sh.wal, sh.snap.lsn) == Tail(sh.hist, sh.snap.lsn)
    requires rec.lsn + 1 == sh.nextLsn && Below(sh.hist, rec.lsn) && sh.highest < rec.lsn && sh.snap.lsn < rec.lsn
    ensures LogOK(Log(sh, rec))
  {
    hide Increasing, Below, Log, Tail;
    LogIs(sh, rec);
    AppendTail(sh, rec);
    BelowMore(sh.wal, sh.highest + 1, rec.lsn);
    IncreasingSnoc(sh.wal, rec);
    IncreasingSnoc(sh.hist, rec);
  }

  lemma AppendTail(sh: Shared, rec: Rec)
    requires Tail(sh.wal, sh.snap.lsn) == Tail(sh.hist, sh.snap.lsn)
    ensures var sh' := Log(sh, rec); Tail(sh'.wal, sh'.snap.lsn) == Tail(sh'.hist, sh'.snap.lsn)
  {
    HeadSnoc(sh.wal, rec, sh.snap.lsn);
    HeadSnoc(sh.hist, rec, sh.snap.lsn);
  }

  lemma LogIs(sh: Shared, rec: Rec)
    requires sh.highest < rec.lsn
    ensures var sh' := Log(sh, rec);
      && sh'.wal == sh.wal + [rec] && sh'.hist == sh.hist + [rec] && sh'.highest == rec.lsn
      && sh'.snap == sh.snap && sh'.nextLsn == sh.nextLsn && sh'.durable == sh.durable
  {
  }

  lemma BelowMore(recs: seq<Rec>, l: nat, m: nat)
    requires Below(recs, l) && l <= m
    ensures Below(recs, m)
  {
  }

  lemma IncreasingSnoc(recs: seq<Rec>, r: Rec)
    requires Increasing(recs) && Below(recs, r.lsn)
    ensures Increasing(recs + [r]) && Below(recs + [r], r.lsn + 1)
  {
  }

  lemma SaveKeepsLog(sh: Shared, c: Choice)
    requires LogOK(sh)
    ensures LogOK(StepThread(sh, CkSave, c).0)
  {
    TailNone(sh.wal, sh.nextLsn - 1);
    TailNone(sh.hist, sh.nextLsn - 1);
  }

  lemma TruncateKeepsLog(sh: Shared, lsn: nat, c: Choice)
    requires LogOK(sh) && PcOK(sh, CkTruncate(lsn))
    ensures LogOK(StepThread(sh, CkTruncate(lsn), c).0)
  {
    TailTruncated(sh.wal, lsn, c.cut);
    var wal' := Truncated(sh.wal, lsn, c.cut);
    forall i | 0 <= i < |wal'| ensures wal'[i].lsn < sh.highest + 1 { assert wal'[i] in sh.wal; }
  }

  // Steps that neither log, nor save, nor reclaim.
  predicate Quiet(pc: PC) { !pc.Append? && !pc.CkAppend? && !pc.CkSave? && !pc.CkTruncate? }

  lemma QuietKeepsLog(sh: Shared, pc: PC, c: Choice)
    requires LogOK(sh) && StableOK(sh) && PcOK(sh, pc) && Quiet(pc)
    ensures LogOK(StepThread(sh, pc, c).0)
  {
    hide Apply, Truncated, Increasing, Tail;
    QuietLeaves(sh, pc, c);
  }

  lemma QuietLeaves(sh: Shared, pc: PC, c: Choice)
    requires Quiet(pc)
    ensures var sh' := StepThread(sh, pc, c).0;
      && sh'.wal == sh.wal && sh'.hist == sh.hist && sh'.highest == sh.highest && sh'.snap == sh.snap
      && sh'.nextLsn >= sh.nextLsn && (!pc.WantWrite? ==> sh'.nextLsn == sh.nextLsn)
      && sh'.nextId >= sh.nextId && (!pc.ApplyRec? ==> sh'.rows == sh.rows)
  {
    hide Apply, Truncated;
  }

  // What no step takes back.
  lemma Forward(sh: Shared, pc: PC, c: Choice)
    ensures var sh' := StepThread(sh, pc, c).0;
      && sh'.durable >= sh.durable && sh'.stable >= sh.stable && sh'.highest >= sh.highest
      && sh'.nextLsn >= sh.nextLsn && sh'.nextId >= sh.nextId && sh'.policy == sh.policy
      && |sh.hist| <= |sh'.hist| && sh'.hist[..|sh.hist|] == sh.hist
  {
    hide Apply, Truncated;
  }

  lemma StableKept(sh: Shared, pc: PC, c: Choice)
    requires LogOK(sh) && StableOK(sh) && PcOK(sh, pc)
    ensures StableOK(StepThread(sh, pc, c).0)
  {
    hide Apply, Truncated, Increasing, Tail, Below;
  }

  // ----- where threads stand -----

  lemma PcAfter(sh: Shared, pc: PC, c: Choice)
    requires LogOK(sh) && StableOK(sh) && PcOK(sh, pc)
    ensures var (sh', pc') := StepThread(sh, pc, c); PcOK(sh', pc')
  {
    hide Apply, Truncated, Increasing, Tail;
  }

  lemma PcBeside(sh: Shared, pc: PC, c: Choice, pc2: PC)
    requires LogOK(sh) && StableOK(sh) && PcOK(sh, pc2)
    requires !(Owns(pc) && Owns(pc2)) && (WantsWrite(pc) ==> !sh.locked) && (Owns(pc2) ==> sh.locked)
    ensures var sh' := StepThread(sh, pc, c).0; PcOK(sh', pc2) && PcOK(sh', Wake(pc2))
  {
    hide Apply, Truncated, Increasing, Tail, Below;
    Forward(sh, pc, c);
  }

  lemma ThreadsKept(s: State, s': State, t: nat, c: Choice)
    requires Ready(s, t) && Stepped(s, s', t, c)
    requires LogOK(s.sh) && StableOK(s.sh) && LockOK(s) && ThreadsOK(s)
    ensures ThreadsOK(s')
  {
    hide StepThread, LogOK, StableOK, PcOK, Wake;
    assert PcOK(s.sh, s.pcs[t]);
    PcAfter(s.sh, s.pcs[t], c);
    forall u | 0 <= u < |s.pcs| && u != t ensures PcOK(s'.sh, s'.pcs[u]) {
      assert PcOK(s.sh, s.pcs[u]);
      assert u < t ==> !(Owns(s.pcs[u]) && Owns(s.pcs[t]));
      PcBeside(s.sh, s.pcs[t], c, s.pcs[u]);
      assert s'.pcs[u] == s.pcs[u] || s'.pcs[u] == Wake(s.pcs[u]);
    }
  }

  // ----- ids -----

  lemma BusyAfter(s: State, t: nat, c: Choice)
    requires Ready(s, t) && Allowed(s, t, c) && IdsOK(s)
    ensures var (sh', pc') := StepThread(s.sh, s.pcs[t], c);
      && (Busy(pc').Some? ==> Busy(pc').value < sh'.nextId)
      && (Busy(pc').Some? ==> forall u :: 0 <= u < |s.pcs| && u != t ==> Busy(s.pcs[u]) != Busy(pc'))
  {
    hide Apply, Truncated, Max;
    var (sh', pc') := StepThread(s.sh, s.pcs[t], c);
    if Busy(pc').Some? && Busy(pc') != Busy(s.pcs[t]) {
      forall u | 0 <= u < |s.pcs| && u != t ensures Busy(s.pcs[u]) != Busy(pc') {}
    }
  }

  lemma RowsIdsAfter(s: State, t: nat, c: Choice)
    requires Ready(s, t) && IdsOK(s) && PcOK(s.sh, s.pcs[t])
    ensures var sh' := StepThread(s.sh, s.pcs[t], c).0;
      RowsBelow(sh'.rows, sh'.nextId) && IdsBelow(sh'.hist, sh'.nextId)
  {
    hide Truncated, Max;
    assert Busy(s.pcs[t]).Some? ==> Busy(s.pcs[t]).value < s.sh.nextId;
    Forward(s.sh, s.pcs[t], c);
  }

  lemma IdsKept(s: State, s': State, t: nat, c: Choice)
    requires Ready(s, t) && Allowed(s, t, c) && Stepped(s, s', t, c) && IdsOK(s) && PcOK(s.sh, s.pcs[t])
    ensures IdsOK(s')
  {
    hide StepThread, PcOK, Busy, Allowed;
    BusyAfter(s, t, c);
    RowsIdsAfter(s, t, c);
    Forward(s.sh, s.pcs[t], c);
    forall u | 0 <= u < |s.pcs| && u != t ensures Busy(s'.pcs[u]) == Busy(s.pcs[u]) {}
  }

  // ----- rows -----

  lemma PendingSame(s: State, s': State, t: nat, id: nat)
    requires t < |s.pcs| == |s'.pcs| && Pending(s'.pcs[t]) == Pending(s.pcs[t])
    requires forall u :: 0 <= u < |s.pcs| && u != t ==> Pending(s'.pcs[u]) == Pending(s.pcs[u])
    ensures IsPending(s', id) <==> IsPending(s, id)
  {
    hide Pending;
    if IsPending(s, id) {
      var u :| 0 <= u < |s.pcs| && Pending(s.pcs[u]).Some? && Pending(s.pcs[u]).value.id == id;
      assert Pending(s'.pcs[u]) == Pending(s.pcs[u]);
    }
    if IsPending(s', id) {
      var u :| 0 <= u < |s'.pcs| && Pending(s'.pcs[u]).Some? && Pending(s'.pcs[u]).value.id == id;
      assert Pending(s'.pcs[u]) == Pending(s.pcs[u]);
    }
  }

  // A step that neither logs nor applies.
  lemma RowsSame(s: State, s': State, t: nat)
    requires t < |s.pcs| == |s'.pcs| && RowsOK(s) && Pending(s'.pcs[t]) == Pending(s.pcs[t])
    requires forall u :: 0 <= u < |s.pcs| && u != t ==> Pending(s'.pcs[u]) == Pending(s.pcs[u])
    requires s'.sh.rows == s.sh.rows && Effect(s'.sh.hist) == Effect(s.sh.hist)
    ensures RowsOK(s')
  {
    hide Pending, RowAfter, Lookup, IsPending, Effect;
    forall id: nat | !IsPending(s', id)
      ensures Lookup(Effect(s'.sh.hist), id) == Lookup(s'.sh.rows, id)
    {
      PendingSame(s, s', t, id);
    }
  }

  // The threads other than t are pending on other ids.
  ghost predicate OthersElsewhere(s: State, t: nat, id: nat) {
    forall u :: 0 <= u < |s.pcs| && u != t && Pending(s.pcs[u]).Some? ==> Pending(s.pcs[u]).value.id != id
  }

  lemma BusyElsewhere(s: State, t: nat)
    requires IdsOK(s) && t < |s.pcs| && Busy(s.pcs[t]).Some?
    ensures OthersElsewhere(s, t, Busy(s.pcs[t]).value)
  {
    forall u | 0 <= u < |s.pcs| && u != t && Pending(s.pcs[u]).Some?
      ensures Pending(s.pcs[u]).value.id != Busy(s.pcs[t]).value
    {
      assert Busy(s.pcs[u]) == Some(Pending(s.pcs[u]).value.id);
    }
  }

  // An operation is logged: its row falls one operation behind.
  lemma RowsLogged(s: State, s': State, t: nat, rec: Rec)
    requires t < |s.pcs| == |s'.pcs| && RowsOK(s) && OthersElsewhere(s, t, rec.id) && Pending(s.pcs[t]).None?
    requires Pending(s'.pcs[t]) == Some(rec)
    requires forall u :: 0 <= u < |s.pcs| && u != t ==> Pending(s'.pcs[u]) == Pending(s.pcs[u])
    requires s'.sh.rows == s.sh.rows && s'.sh.hist == s.sh.hist + [rec]
    ensures RowsOK(s')
  {
    hide Pending, RowAfter, Lookup, Effect, Apply;
    var full, full' := Effect(s.sh.hist), Effect(s'.sh.hist);
    EffectSnoc(s.sh.hist, rec);
    assert !IsPending(s, rec.id);
    ApplyAt(full, rec, rec.id);
    forall u | 0 <= u < |s.pcs| && Pending(s'.pcs[u]).Some?
      ensures var r := Pending(s'.pcs[u]).value; Lookup(full', r.id) == RowAfter(Lookup(s'.sh.rows, r.id), r.act)
    {
      if u != t { ApplyAt(full, rec, Pending(s'.pcs[u]).value.id); }
    }
    forall id: nat | !IsPending(s', id) ensures Lookup(full', id) == Lookup(s'.sh.rows, id) {
      assert id != rec.id;
      ApplyAt(full, rec, id);
      StillFree(s, s', t, id);
    }
  }

  // A row that nobody is pending on after the step, t aside, was free before it.
  lemma StillFree(s: State, s': State, t: nat, id: nat)
    requires t < |s.pcs| == |s'.pcs| && !IsPending(s', id)
    requires Pending(s.pcs[t]).Some? ==> Pending(s.pcs[t]).value.id != id
    requires forall u :: 0 <= u < |s.pcs| && u != t ==> Pending(s'.pcs[u]) == Pending(s.pcs[u])
    ensures !IsPending(s, id)
  {
    hide Pending;
    forall u | 0 <= u < |s.pcs| && Pending(s.pcs[u]).Some? ensures Pending(s.pcs[u]).value.id != id {
      assert u != t ==> Pending(s'.pcs[u]) == Pending(s.pcs[u]);
    }
  }

  // An operation is applied: its row catches up.
  lemma RowsApplied(s: State, s': State, t: nat, rec: Rec)
    requires t < |s.pcs| == |s'.pcs| && RowsOK(s) && OthersElsewhere(s, t, rec.id)
    requires Pending(s.pcs[t]) == Some(rec) && Pending(s'.pcs[t]).None?
    requires forall u :: 0 <= u < |s.pcs| && u != t ==> Pending(s'.pcs[u]) == Pending(s.pcs[u])
    requires s'.sh.rows == Apply(s.sh.rows, rec) && s'.sh.hist == s.sh.hist
    ensures RowsOK(s')
  {
    hide Pending, RowAfter, Lookup, Effect, Apply;
    var full := Effect(s.sh.hist);
    forall u | 0 <= u < |s.pcs| && Pending(s'.pcs[u]).Some?
      ensures var r := Pending(s'.pcs[u]).value; Lookup(full, r.id) == RowAfter(Lookup(s'.sh.rows, r.id), r.act)
    {
      ApplyAt(s.sh.rows, rec, Pending(s'.pcs[u]).value.id);
    }
    forall id: nat | !IsPending(s', id) ensures Lookup(full, id) == Lookup(s'.sh.rows, id) {
      ApplyAt(s.sh.rows, rec, id);
      if id != rec.id { StillFree(s, s', t, id); }
    }
  }

  lemma PendingAfter(sh: Shared, pc: PC, c: Choice)
    ensures var (sh', pc') := StepThread(sh, pc, c);
      && (!pc.Append? && !pc.ApplyRec? ==> Pending(pc') == Pending(pc))
      && (pc.Append? ==> Pending(pc) == None && Pending(pc') == Some(pc.rec) && sh'.hist == sh.hist + [pc.rec])
      && (pc.ApplyRec? ==> Pending(pc) == Some(pc.rec) && Pending(pc') == None && sh'.rows == Apply(sh.rows, pc.rec))
      && (!pc.ApplyRec? ==> sh'.rows == sh.rows)
      && (pc.CkAppend? ==> sh'.hist == sh.hist + [Rec(sh.nextLsn, 0, Mark)])
      && (!pc.Append? && !pc.CkAppend? ==> sh'.hist == sh.hist)
  {
    hide Apply, Truncated, Max;
  }

  lemma RowsKept(s: State, s': State, t: nat, c: Choice)
    requires Stepped(s, s', t, c) && RowsOK(s) && IdsOK(s)
    ensures RowsOK(s')
  {
    hide StepThread, Pending, RowsOK, IdsOK, Apply, Effect;
    var pc := s.pcs[t];
    PendingAfter(s.sh, pc, c);
    assert forall u :: 0 <= u < |s.pcs| && u != t ==> Pending(s'.pcs[u]) == Pending(s.pcs[u]);
    if pc.Append? {
      BusyElsewhere(s, t);
      RowsLogged(s, s', t, pc.rec);
    } else if pc.ApplyRec? {
      BusyElsewhere(s, t);
      RowsApplied(s, s', t, pc.rec);
    } else {
      if pc.CkAppend? { MarkReplays(s.sh.hist, Rec(s.sh.nextLsn, 0, Mark)); }
      RowsSame(s, s', t);
    }
  }

  lemma MarkReplays(hist: seq<Rec>, r: Rec)
    requires r.act.Mark?
    ensures Effect(hist + [r]) == Effect(hist)
  {
    EffectSnoc(hist, r);
  }

  // ----- the snapshot -----

  // A checkpoint that saves finds no operation half done: it sees exactly the effects of
  // every lsn below the next one.
  lemma SaveSeesAll(s: State, t: nat)
    requires t < |s.pcs| && s.pcs[t].CkSave? && PcOK(s.sh, s.pcs[t])
    requires LockOK(s) && FlightOK(s) && RowsOK(s) && LogOK(s.sh)
    ensures s.sh.rows == Effect(s.sh.hist) && Head(s.sh.hist, s.sh.nextLsn - 1) == s.sh.hist
    ensures forall u :: 0 <= u < |s.pcs| ==> Pending(s.pcs[u]).None?
  {
    hide Effect, Lookup, RowAfter;
    forall u | 0 <= u < |s.pcs| ensures Pending(s.pcs[u]).None? {
      FlightsZero(s.pcs, u);
      assert u != t ==> !Owns(s.pcs[u]);
    }
    forall id: nat ensures Lookup(Effect(s.sh.hist), id) == Lookup(s.sh.rows, id) {
      assert !IsPending(s, id);
    }
    RowsEqual(Effect(s.sh.hist), s.sh.rows);
    HeadAll(s.sh.hist, s.sh.nextLsn - 1);
  }

  lemma SnapSaved(s: State, t: nat)
    requires t < |s.pcs| && s.pcs[t].CkSave? && PcOK(s.sh, s.pcs[t])
    requires LockOK(s) && FlightOK(s) && RowsOK(s) && LogOK(s.sh) && IdsOK(s)
    ensures SnapOK(s.sh.(snap := Snapshot(s.sh.nextLsn - 1, s.sh.rows, s.sh.nextId)))
  {
    hide LockOK, FlightOK, RowsOK, Effect, Head;
    SaveSeesAll(s, t);
  }

  lemma SnapLogged(sh: Shared, sh': Shared, rec: Rec)
    requires SnapOK(sh) && sh'.snap == sh.snap && sh'.hist == sh.hist + [rec] && rec.lsn > sh.snap.lsn
    requires sh'.nextId >= sh.nextId
    ensures SnapOK(sh')
  {
    HeadSnoc(sh.hist, rec, sh.snap.lsn);
    assert Head(sh'.hist, sh'.snap.lsn) == Head(sh.hist, sh.snap.lsn);
    assert sh'.snap.rows == sh.snap.rows;
  }

  lemma SnapKept(s: State, s': State, t: nat, c: Choice)
    requires Stepped(s, s', t, c) && PcOK(s.sh, s.pcs[t]) && SnapOK(s.sh)
    requires LockOK(s) && FlightOK(s) && RowsOK(s) && LogOK(s.sh) && IdsOK(s)
    ensures SnapOK(s'.sh)
  {
    hide SnapOK, LockOK, FlightOK, RowsOK, IdsOK, Effect, Increasing, Tail, Below;
    var pc := s.pcs[t];
    Forward(s.sh, pc, c);
    if pc.CkSave? {
      SnapSaved(s, t);
    } else if pc.Append? {
      SnapLogged(s.sh, s'.sh, pc.rec);
    } else if pc.CkAppend? {
      SnapLogged(s.sh, s'.sh, Rec(s.sh.nextLsn, 0, Mark));
    } else {
      SnapSame(s.sh, s'.sh);
    }
  }

  lemma SnapSame(sh: Shared, sh': Shared)
    requires SnapOK(sh) && sh'.snap == sh.snap && sh'.hist == sh.hist && sh'.nextId >= sh.nextId
    ensures SnapOK(sh')
  {
    assert Head(sh'.hist, sh'.snap.lsn) == Head(sh.hist, sh.snap.lsn);
    assert sh'.snap.rows == sh.snap.rows;
  }

  // ----- what is applied is durable -----

  lemma HeldOn(s: State, s': State, t: nat, r: Rec)
    requires t < |s.pcs| == |s'.pcs| && HeldBack(s, r)
    requires forall u :: 0 <= u < |s.pcs| && u != t ==> Pending(s'.pcs[u]) == Pending(s.pcs[u])
    ensures HeldBack(s', r) || Pending(s.pcs[t]) == Some(r)
  {
    hide Pending;
    var u :| 0 <= u < |s.pcs| && Pending(s.pcs[u]) == Some(r);
    if u != t { assert Pending(s'.pcs[u]) == Some(r); }
  }

  lemma AppliedKept(s: State, s': State, t: nat, c: Choice)
    requires Stepped(s, s', t, c) && PcOK(s.sh, s.pcs[t]) && AppliedDurable(s)
    ensures AppliedDurable(s')
  {
    hide StepThread, Pending, HeldBack;
    var pc := s.pcs[t];
    PendingAfter(s.sh, pc, c);
    Forward(s.sh, pc, c);
    assert forall u :: 0 <= u < |s.pcs| && u != t ==> Pending(s'.pcs[u]) == Pending(s.pcs[u]);
    if s.sh.policy.PerOpSync? {
      forall i | 0 <= i < |s'.sh.hist|
        ensures s'.sh.hist[i].act.Mark? || s'.sh.hist[i].lsn <= s'.sh.durable || HeldBack(s', s'.sh.hist[i])
      {
        if i < |s.sh.hist| {
          OldApplied(s, s', t, c, i);
        } else if pc.Append? {
          NowHeld(s', t, pc.rec);
        }
      }
    }
  }

  lemma PendingInKept(s: State, s': State, t: nat, c: Choice)
    requires Stepped(s, s', t, c) && PcOK(s.sh, s.pcs[t]) && PendingIn(s)
    ensures PendingIn(s')
  {
    hide StepThread, Pending;
    PendingAfter(s.sh, s.pcs[t], c);
    forall u | 0 <= u < |s.pcs| && Pending(s'.pcs[u]).Some?
      ensures Pending(s'.pcs[u]).value in s'.sh.hist && !Pending(s'.pcs[u]).value.act.Mark?
    {
      assert u != t ==> Pending(s'.pcs[u]) == Pending(s.pcs[u]);
    }
  }

  lemma NowHeld(s: State, t: nat, r: Rec)
    requires t < |s.pcs| && Pending(s.pcs[t]) == Some(r)
    ensures HeldBack(s, r)
  {
  }

  lemma OldApplied(s: State, s': State, t: nat, c: Choice, i: nat)
    requires Stepped(s, s', t, c) && PcOK(s.sh, s.pcs[t]) && AppliedDurable(s) && s.sh.policy.PerOpSync?
    requires i < |s.sh.hist| <= |s'.sh.hist| && s'.sh.hist[..|s.sh.hist|] == s.sh.hist
    requires s'.sh.durable >= s.sh.durable
    ensures s'.sh.hist[i].act.Mark? || s'.sh.hist[i].lsn <= s'.sh.durable || HeldBack(s', s'.sh.hist[i])
  {
    hide StepThread, Pending, HeldBack;
    var r := s.sh.hist[i];
    assert s'.sh.hist[i] == r by { assert s'.sh.hist[..|s.sh.hist|][i] == r; }
    PendingAfter(s.sh, s.pcs[t], c);
    if HeldBack(s, r) {
      HeldOn(s, s', t, r);
      if Pending(s.pcs[t]) == Some(r) && !s.pcs[t].ApplyRec? { NowHeld(s', t, r); }
    }
  }

  // ----- rounds -----

  lemma CoversOn(s: State, s': State, t: nat, c: Choice, l: nat)
    requires Stepped(s, s', t, c) && LeaderCovers(s, l) && l <= s.sh.highest
    ensures LeaderCovers(s', l)
  {
    hide Apply, Truncated, Max, Log;
    forall u | 0 <= u < |s'.pcs| && Leads(s'.pcs[u])
      ensures match s'.pcs[u] case Fsync(_, target) => target >= l case Synced(_, target) => target >= l case _ => true
    {
      if u != t { assert Leads(s.pcs[u]) && s'.pcs[u] == s.pcs[u]; }
    }
  }

  // Once a leader is done there is none, so the next one covers whatever is logged.
  lemma CoversNone(s: State, s': State, t: nat, c: Choice, l: nat)
    requires Stepped(s, s', t, c) && LeadOK(s) && s.pcs[t].Synced? && Leads(s.pcs[t])
    ensures LeaderCovers(s', l)
  {
    forall u | 0 <= u < |s'.pcs| ensures !Leads(s'.pcs[u]) {
      if u != t { assert Leads(s'.pcs[u]) == Leads(s.pcs[u]); }
    }
  }

  lemma LeaderTarget(s: State, t: nat, l: nat)
    requires t < |s.pcs| && s.pcs[t].Synced? && Leads(s.pcs[t]) && LeaderCovers(s, l)
    ensures s.pcs[t].target >= l
  {
  }

  lemma RoundOf(s: State, t: nat, c: Choice, u: nat)
    requires Ready(s, t) && u < |s.pcs| && RoundsOK(s) && LeadOK(s) && ThreadsOK(s)
    requires Pending(Step(s, t, c).pcs[u]).Some?
    ensures var s' := Step(s, t, c); var l := Pending(s'.pcs[u]).value.lsn;
      && s'.rounds[u] <= 2
      && (l > s'.sh.durable ==> s'.rounds[u] <= 1 && (s'.rounds[u] == 1 ==> LeaderCovers(s', l)))
  {
    hide LeadOK, LeaderCovers, StepThread, PcOK;
    var s' := Step(s, t, c);
    var pc := s.pcs[t];
    StepIs(s, t, c);
    PendingAfter(s.sh, pc, c);
    Forward(s.sh, pc, c);
    if !(u == t && pc.Append?) {
      assert Pending(s'.pcs[u]) == Pending(s.pcs[u]);
      var l := Pending(s.pcs[u]).value.lsn;
      PendingLogged(s.sh, s.pcs[u]);
      if pc.Synced? && Leads(pc) {
        CoversNone(s, s', t, c, l);
        if s.sh.durable < l && s.rounds[u] == 1 {
          LeaderTarget(s, t, l);
          SyncedRaises(s.sh, pc, c);
        }
      } else if l > s.sh.durable && s.rounds[u] == 1 {
        CoversOn(s, s', t, c, l);
      }
    }
  }

  lemma PendingLogged(sh: Shared, pc: PC)
    requires PcOK(sh, pc) && Pending(pc).Some?
    ensures Pending(pc).value.lsn <= sh.highest
  {
  }

  lemma SyncedRaises(sh: Shared, pc: PC, c: Choice)
    requires pc.Synced? && Leads(pc)
    ensures StepThread(sh, pc, c).0.durable >= pc.target
  {
  }

  lemma RoundsKept(s: State, t: nat, c: Choice)
    requires Ready(s, t) && RoundsOK(s) && LeadOK(s) && ThreadsOK(s)
    ensures RoundsOK(Step(s, t, c))
  {
    hide LeadOK, ThreadsOK, LeaderCovers, StepThread, RoundsOK;
    var s' := Step(s, t, c);
    forall u | 0 <= u < |s'.pcs| && Pending(s'.pcs[u]).Some?
      ensures var l := Pending(s'.pcs[u]).value.lsn;
        && s'.rounds[u] <= 2
        && (l > s'.sh.durable ==> s'.rounds[u] <= 1 && (s'.rounds[u] == 1 ==> LeaderCovers(s', l)))
    {
      RoundOf(s, t, c, u);
    }
    RoundsAre(s');
  }

  lemma RoundsAre(s: State)
    requires |s.rounds| == |s.pcs|
    requires forall t :: 0 <= t < |s.pcs| && Pending(s.pcs[t]).Some? ==>
      (var l := Pending(s.pcs[t]).value.lsn;
       && s.rounds[t] <= 2
       && (l > s.sh.durable ==> s.rounds[t] <= 1 && (s.rounds[t] == 1 ==> LeaderCovers(s, l))))
    ensures RoundsOK(s)
  {
  }

  lemma StepKeepsInv(s: State, t: nat, c: Choice)
    requires Inv(s) && Ready(s, t) && Allowed(s, t, c)
    ensures Inv(Step(s, t, c))
  {
    hide Step, Ready, Allowed, PendingIn, LogOK, StableOK, SnapOK, IdsOK, RowsOK, LockOK, LeadOK, FlightOK, SleepOK,
      AppliedDurable, RoundsOK, PcOK, StepThread;
    var s' := Step(s, t, c);
    StepIs(s, t, c);
    assert PcOK(s.sh, s.pcs[t]);
    LogKept(s.sh, s.pcs[t], c);
    StableKept(s.sh, s.pcs[t], c);
    SnapKept(s, s', t, c);
    IdsKept(s, s', t, c);
    RowsKept(s, s', t, c);
    LockKept(s, s', t, c);
    LeadKept(s, s', t, c);
    FlightKept(s, s', t, c);
    SleepKept(s, s', t, c);
    ThreadsKept(s, s', t, c);
    AppliedKept(s, s', t, c);
    PendingInKept(s, s', t, c);
    RoundsKept(s, t, c);
  }
}
