/** What the durable database promises, over every interleaving of its threads and every
    sequence of crashes. */
module DurableTheorems {
  import opened Basics
  import opened WalRecords
  import opened DurableThreads
  import opened DurableLog
  import opened DurableInvariant

  // ----- a crash -----

  // What survives is a prefix of what was logged: the snapshot's part, and then as much
  // of the rest as the log file kept.
  lemma SurvivorsPrefix(sh: Shared, keep: nat) returns (m: nat)
    requires LogOK(sh) && CrashKeeps(sh, keep)
    ensures m <= |sh.hist| && Survivors(sh, keep) == sh.hist[..m]
    ensures Tail(Survivors(sh, keep), sh.snap.lsn) == Tail(sh.wal[..keep], sh.snap.lsn)
    ensures Head(Survivors(sh, keep), sh.snap.lsn) == Head(sh.hist, sh.snap.lsn)
    ensures forall i :: m <= i < |sh.hist| ==> sh.hist[i].lsn > Max(sh.stable, sh.snap.lsn)
  {
    var l := sh.snap.lsn;
    m := LostBeyond(sh.hist, sh.wal, keep, l, sh.stable);
    PrefixHead(sh.hist, m, l);
    HeadTail(sh.hist, l);
    assert sh.hist[..m] == sh.hist[..|Head(sh.hist, l)|] + sh.hist[|Head(sh.hist, l)|..m];
  }

  // The operations of the log file beyond the snapshot, split where the file was cut.
  lemma LostBeyond(hist: seq<Rec>, wal: seq<Rec>, keep: nat, l: nat, stable: nat) returns (m: nat)
    requires Increasing(hist) && Tail(wal, l) == Tail(hist, l) && keep <= |wal|
    requires forall i :: keep <= i < |wal| ==> wal[i].lsn > stable
    ensures |Head(hist, l)| <= m <= |hist| && Tail(wal[..keep], l) == hist[|Head(hist, l)|..m]
    ensures forall i :: m <= i < |hist| ==> hist[i].lsn > Max(stable, l)
  {
    hide Tail, Head, Max;
    var kept, lost := wal[..keep], wal[keep..];
    assert wal == kept + lost;
    TailConcat(kept, lost, l);
    HeadTail(hist, l);
    var h := |Head(hist, l)|;
    m := h + |Tail(kept, l)|;
    assert hist[h..] == Tail(kept, l) + Tail(lost, l);
    assert hist[h..m] == hist[h..][..m - h] == Tail(kept, l);
    TailBeyond(lost, l, stable);
    forall i | m <= i < |hist| ensures hist[i].lsn > Max(stable, l) {
      assert hist[i] == hist[h..][i - h] == Tail(lost, l)[i - m];
    }
  }

  lemma PrefixHead(recs: seq<Rec>, m: nat, l: nat)
    requires Increasing(recs) && |Head(recs, l)| <= m <= |recs|
    ensures Head(recs[..m], l) == Head(recs, l) && Tail(recs[..m], l) == recs[|Head(recs, l)|..m]
  {
    hide Head, Tail;
    HeadTail(recs, l);
    assert recs == recs[..m] + recs[m..];
    HeadConcat(recs[..m], recs[m..], l);
    forall i | 0 <= i < |recs[m..]| ensures recs[m..][i].lsn > l { assert recs[m..][i] == recs[m + i]; }
    HeadNone(recs[m..], l);
    HeadTail(recs[..m], l);
    assert recs[..m][|Head(recs, l)|..] == recs[|Head(recs, l)|..m];
  }

  // What was lost lies beyond stable storage and the snapshot.
  lemma {:induction false} TailBeyond(lost: seq<Rec>, l: nat, stable: nat)
    requires forall i :: 0 <= i < |lost| ==> lost[i].lsn > stable
    ensures forall i :: 0 <= i < |Tail(lost, l)| ==> Tail(lost, l)[i].lsn > Max(stable, l)
  {
    if lost != [] { TailBeyond(lost[..|lost| - 1], l, stable); }
  }

  lemma {:induction false} FlightsIdle(pcs: seq<PC>)
    requires forall t :: 0 <= t < |pcs| ==> pcs[t].Idle?
    ensures Flights(pcs) == 0
  {
    if pcs != [] { FlightsIdle(pcs[..|pcs| - 1]); }
  }

  // A database just recovered, or new: nobody is at work, everything in the log is stable.
  lemma RecoveredInv(s: State, snap: Snapshot, wal: seq<Rec>, hist: seq<Rec>)
    requires s.sh == Recover(s.sh.policy, s.sh.checkpointOps, snap, wal, hist)
    requires |s.rounds| == |s.pcs| && forall t :: 0 <= t < |s.pcs| ==> s.pcs[t].Idle?
    requires Increasing(wal) && Increasing(hist) && Below(hist, Max(snap.lsn, MaxLsn(wal)) + 1)
    requires Tail(wal, snap.lsn) == Tail(hist, snap.lsn) && hist == Head(hist, snap.lsn) + Tail(wal, snap.lsn)
    requires snap.rows == Effect(Head(hist, snap.lsn)) && RowsBelow(snap.rows, snap.nextId)
    requires IdsBelow(Head(hist, snap.lsn), snap.nextId)
    ensures Inv(s) && s.sh.rows == Effect(hist)
  {
    hide Increasing, Tail, Head, RowAfter, IdsBelow, RowsBelow;
    RecoveredRows(s.sh, snap, wal, hist);
    RecoveredIds(s.sh, snap, wal, hist);
    MaxLsnBounds(wal);
    FlightsIdle(s.pcs);
    RecoveredApplied(s);
  }

  lemma RecoveredRows(sh: Shared, snap: Snapshot, wal: seq<Rec>, hist: seq<Rec>)
    requires sh == Recover(sh.policy, sh.checkpointOps, snap, wal, hist)
    requires hist == Head(hist, snap.lsn) + Tail(wal, snap.lsn) && snap.rows == Effect(Head(hist, snap.lsn))
    ensures sh.rows == Effect(hist)
  {
    ReplayConcat(map[], Head(hist, snap.lsn), Tail(wal, snap.lsn));
  }

  lemma RecoveredIds(sh: Shared, snap: Snapshot, wal: seq<Rec>, hist: seq<Rec>)
    requires sh == Recover(sh.policy, sh.checkpointOps, snap, wal, hist)
    requires hist == Head(hist, snap.lsn) + Tail(wal, snap.lsn)
    requires RowsBelow(snap.rows, snap.nextId) && IdsBelow(Head(hist, snap.lsn), snap.nextId)
    ensures RowsBelow(sh.rows, sh.nextId) && IdsBelow(hist, sh.nextId) && snap.nextId <= sh.nextId
  {
    ReplayBelow(snap.rows, snap.nextId, Tail(wal, snap.lsn));
    NextIdAhead(snap.nextId, Tail(wal, snap.lsn));
  }

  lemma RecoveredApplied(s: State)
    requires Below(s.sh.hist, s.sh.durable + 1)
    ensures AppliedDurable(s)
  {
  }

  lemma CrashKeepsInv(s: State, keep: nat) returns (m: nat)
    requires Inv(s) && CrashKeeps(s.sh, keep)
    ensures Inv(Crash(s, keep)) && m <= |s.sh.hist| && Crash(s, keep).sh.hist == s.sh.hist[..m]
    ensures Crash(s, keep).sh.rows == Effect(s.sh.hist[..m])
    ensures forall i :: m <= i < |s.sh.hist| ==> s.sh.hist[i].lsn > s.sh.durable
  {
    hide LockOK, LeadOK, FlightOK, SleepOK, ThreadsOK, RowsOK, AppliedDurable, PendingIn, LeaderCovers, IdsOK, Tail,
      Head, Increasing;
    m := SurvivorsPrefix(s.sh, keep);
    CrashLog(s.sh, keep, m);
    RecoveredInv(Crash(s, keep), s.sh.snap, s.sh.wal[..keep], Survivors(s.sh, keep));
  }

  lemma CrashLog(sh: Shared, keep: nat, m: nat)
    requires LogOK(sh) && CrashKeeps(sh, keep) && m <= |sh.hist| && Survivors(sh, keep) == sh.hist[..m]
    requires Head(Survivors(sh, keep), sh.snap.lsn) == Head(sh.hist, sh.snap.lsn)
    requires Tail(Survivors(sh, keep), sh.snap.lsn) == Tail(sh.wal[..keep], sh.snap.lsn)
    ensures Increasing(sh.wal[..keep]) && Increasing(Survivors(sh, keep))
    ensures Below(Survivors(sh, keep), Max(sh.snap.lsn, MaxLsn(sh.wal[..keep])) + 1)
    ensures Survivors(sh, keep) == Head(Survivors(sh, keep), sh.snap.lsn) + Tail(sh.wal[..keep], sh.snap.lsn)
  {
    var live, l := Survivors(sh, keep), sh.snap.lsn;
    HeadTail(live, l);
    MaxLsnBounds(sh.wal[..keep]);
    TailMembers(sh.wal[..keep], l);
    forall i | 0 <= i < |live| ensures live[i].lsn < Max(l, MaxLsn(sh.wal[..keep])) + 1 {
      if i >= |Head(live, l)| {
        assert live[i] == Tail(live, l)[i - |Head(live, l)|];
        assert live[i] in Tail(sh.wal[..keep], l);
      }
    }
  }

  // ----- runs -----

  lemma InitInv(s: State)
    requires Init(s)
    ensures Inv(s)
  {
    RecoveredInv(s, Snapshot(0, map[], 0), [], []);
  }

  // In every state of every run, whatever the interleaving and however many crashes.
  lemma {:induction false} RunKeepsInv(states: seq<State>, i: nat)
    requires Run(states) && i < |states|
    ensures Inv(states[i])
    ensures states[i].sh.policy == states[0].sh.policy
  {
    hide Inv, Init, Crash, CrashKeeps, Step, Allowed, Ready;
    if i == 0 {
      InitInv(states[0]);
    } else {
      RunKeepsInv(states, i - 1);
      assert Follows(states[i - 1], states[(i - 1) + 1]);
      FollowsKeepsInv(states[i - 1], states[i]);
    }
  }

  lemma FollowsKeepsInv(s: State, s': State)
    requires Inv(s) && Follows(s, s')
    ensures Inv(s') && s'.sh.policy == s.sh.policy
  {
    hide Inv, StepThread, Recover, Survivors, Rounds, Allowed;
    if t: nat, c: Choice :| Ready(s, t) && Allowed(s, t, c) && s' == Step(s, t, c) {
      StepKeepsInv(s, t, c);
      Forward(s.sh, s.pcs[t], c);
    } else {
      var keep: nat :| CrashKeeps(s.sh, keep) && s' == Crash(s, keep);
      var m := CrashKeepsInv(s, keep);
      CrashPolicy(s, keep);
    }
  }

  lemma CrashPolicy(s: State, keep: nat)
    requires keep <= |s.sh.wal|
    ensures Crash(s, keep).sh.policy == s.sh.policy && Crash(s, keep).sh.hist == Survivors(s.sh, keep)
  {
  }

  // ----- what a crash leaves -----

  // After a crash at any step of any run, recovery rebuilds the effect, in lsn order and
  // once each, of a prefix of the logged operations. The prefix holds every operation
  // that was reported durable; under PerOpSync, every operation that was applied. New
  // lsns and new ids are beyond everything that was recovered.
  lemma CrashRecoversPrefix(states: seq<State>, i: nat, keep: nat) returns (m: nat)
    requires Run(states) && i < |states| && CrashKeeps(states[i].sh, keep)
    ensures var s, s' := states[i], Crash(states[i], keep);
      && m <= |s.sh.hist| && s'.sh.hist == s.sh.hist[..m]
      && s'.sh.rows == Effect(s.sh.hist[..m]) && Increasing(s.sh.hist)
      && (forall k :: 0 <= k < |s.sh.hist| && s.sh.hist[k].lsn <= s.sh.durable ==> k < m)
      && (s.sh.policy.PerOpSync? ==>
           forall k :: 0 <= k < |s.sh.hist| && !s.sh.hist[k].act.Mark? && !HeldBack(s, s.sh.hist[k]) ==> k < m)
      && (forall k :: 0 <= k < m ==> s.sh.hist[k].lsn < s'.sh.nextLsn)
      && (forall k :: 0 <= k < m && s.sh.hist[k].act.Put? ==> s.sh.hist[k].id < s'.sh.nextId)
      && RowsBelow(s'.sh.rows, s'.sh.nextId)
  {
    hide HeldBack, Crash, Effect, RowsBelow, LockOK, LeadOK, FlightOK, SleepOK, ThreadsOK, RowsOK, RoundsOK, Run;
    RunKeepsInv(states, i);
    m := CrashKeepsInv(states[i], keep);
    var s, s' := states[i], Crash(states[i], keep);
    forall k | 0 <= k < m ensures s.sh.hist[k] == s'.sh.hist[k] {}
  }

  // ----- what stays -----

  ghost predicate Settled(s: State, r: Rec) { r in s.sh.hist && !r.act.Mark? && !HeldBack(s, r) }

  // An operation that its thread has just applied is settled.
  lemma AppliedSettles(s: State, t: nat, c: Choice)
    requires Inv(s) && Ready(s, t) && s.pcs[t].ApplyRec?
    ensures Settled(Step(s, t, c), s.pcs[t].rec)
  {
    hide LogOK, StableOK, SnapOK, RowsOK, LockOK, LeadOK, FlightOK, SleepOK, ThreadsOK, AppliedDurable, RoundsOK,
      StepThread, Step;
    var r, s' := s.pcs[t].rec, Step(s, t, c);
    StepIs(s, t, c);
    PendingAfter(s.sh, s.pcs[t], c);
    assert Pending(s.pcs[t]) == Some(r);
    forall u | 0 <= u < |s'.pcs| ensures Pending(s'.pcs[u]) != Some(r) {
      if u != t { BusyElsewhere(s, t); }
    }
  }

  lemma StepSettled(s: State, t: nat, c: Choice, r: Rec)
    requires Inv(s) && Ready(s, t) && Settled(s, r)
    ensures Settled(Step(s, t, c), r)
  {
    hide StableOK, SnapOK, RowsOK, LockOK, LeadOK, FlightOK, SleepOK, AppliedDurable, RoundsOK, StepThread, Step,
      IdsOK, Pending;
    var s' := Step(s, t, c);
    StepIs(s, t, c);
    PendingAfter(s.sh, s.pcs[t], c);
    assert PcOK(s.sh, s.pcs[t]);
    forall u | 0 <= u < |s'.pcs| ensures Pending(s'.pcs[u]) != Some(r) {
      assert Pending(s.pcs[u]) != Some(r);
      if u == t && s.pcs[t].Append? { assert r.lsn < s.pcs[t].rec.lsn; }
    }
  }

  lemma CrashSettled(s: State, keep: nat, r: Rec)
    requires Inv(s) && CrashKeeps(s.sh, keep) && Settled(s, r) && s.sh.policy.PerOpSync?
    ensures Settled(Crash(s, keep), r)
  {
    hide StableOK, SnapOK, RowsOK, LockOK, LeadOK, FlightOK, SleepOK, ThreadsOK, RoundsOK, IdsOK, Recover, Survivors,
      CrashKeeps;
    var m := CrashKeepsInv(s, keep);
    var k :| 0 <= k < |s.sh.hist| && s.sh.hist[k] == r;
    assert s.sh.hist[k].lsn <= s.sh.durable;
    assert s.sh.hist[..m][k] == r;
  }

  /** PerOpSync: what is applied once, in particular every operation whose call returned,
      stays, through every later step and every later crash and recovery. A crash here is a
      loss of power: what recovery finds in the files is on disk, so it counts as stable.
      After the death of the process alone, recovery may also find records that were written
      but never synced, and nothing syncs them on the way; their calls had not returned. */
  lemma {:induction false} AppliedStays(states: seq<State>, i: nat, j: nat, r: Rec)
    requires Run(states) && i <= j < |states| && states[0].sh.policy.PerOpSync? && Settled(states[i], r)
    ensures Settled(states[j], r)
    decreases j
  {
    hide Inv, Settled, Init, Crash, CrashKeeps, Step, Allowed, Ready;
    if i < j {
      AppliedStays(states, i, j - 1, r);
      RunKeepsInv(states, j - 1);
      assert Follows(states[j - 1], states[(j - 1) + 1]);
      FollowsSettled(states[j - 1], states[j], r);
    }
  }

  lemma FollowsSettled(s: State, s': State, r: Rec)
    requires Inv(s) && Follows(s, s') && Settled(s, r) && s.sh.policy.PerOpSync?
    ensures Settled(s', r)
  {
    hide Inv, Settled, Step, Crash, Allowed, Ready;
    if t: nat, c: Choice :| Ready(s, t) && Allowed(s, t, c) && s' == Step(s, t, c) {
      StepSettled(s, t, c, r);
    } else {
      var keep: nat :| CrashKeeps(s.sh, keep) && s' == Crash(s, keep);
      CrashSettled(s, keep, r);
    }
  }

  // What the live database shows: for an id with no operation under way, the effect of
  // all logged operations in lsn order, whatever order they were applied in.
  lemma LiveIsReplay(states: seq<State>, i: nat, id: nat)
    requires Run(states) && i < |states| && !IsPending(states[i], id)
    ensures Lookup(states[i].sh.rows, id) == Lookup(Effect(states[i].sh.hist), id)
  {
    RunKeepsInv(states, i);
  }

  // ----- checkpoints and group commit -----

  // A checkpoint saves exactly the effects of every lsn below the next one.
  lemma CheckpointIsExact(states: seq<State>, i: nat, t: nat, c: Choice)
    requires Run(states) && i < |states| && Ready(states[i], t) && states[i].pcs[t].CkSave?
    ensures var s, s' := states[i], Step(states[i], t, c);
      && s'.sh.snap.lsn + 1 == s.sh.nextLsn && s'.sh.snap.rows == Effect(s.sh.hist)
      && forall k :: 0 <= k < |s.sh.hist| ==> s.sh.hist[k].lsn <= s'.sh.snap.lsn
  {
    hide Run, Effect;
    RunKeepsInv(states, i);
    assert PcOK(states[i].sh, states[i].pcs[t]);
    SaveSeesAll(states[i], t);
  }

  // Group commit: one leader at a time, no claim beyond what is stable, and at most two
  // completed syncs of a leader between a writer's append and its lsn being covered.
  lemma GroupCommitIsBounded(states: seq<State>, i: nat, t: nat, u: nat)
    requires Run(states) && i < |states| && t < |states[i].pcs| && u < |states[i].pcs|
    ensures var s := states[i];
      && (Leads(s.pcs[t]) && Leads(s.pcs[u]) ==> t == u)
      && s.sh.durable <= Max(s.sh.stable, s.sh.snap.lsn)
      && |s.rounds| == |s.pcs|
      && (Pending(s.pcs[t]).Some? ==>
           s.rounds[t] <= 2 && (s.rounds[t] == 2 ==> Pending(s.pcs[t]).value.lsn <= s.sh.durable))
  {
    hide Run, Effect;
    RunKeepsInv(states, i);
  }

  // ----- progress -----

  predicate Moves(s: State, t: nat) {
    Ready(s, t) && !s.pcs[t].Idle? && !Sleeps(s.pcs[t])
  }

  // No deadlock and no lost wake-up: while some thread has work, some thread can do work
  // without waiting to be woken.
  lemma SomeoneMoves(states: seq<State>, i: nat, u: nat) returns (t: nat)
    requires Run(states) && i < |states| && u < |states[i].pcs| && !states[i].pcs[u].Idle?
    ensures Moves(states[i], t)
  {
    hide Run, LogOK, SnapOK, IdsOK, RowsOK, ThreadsOK, AppliedDurable, PendingIn, StableOK;
    RunKeepsInv(states, i);
    var s := states[i];
    t := u;
    if WantsWrite(s.pcs[t]) && s.sh.locked {
      t :| 0 <= t < |s.pcs| && Owns(s.pcs[t]);
    }
    if s.pcs[t].CkDrainWait? {
      FlightsSome(s.pcs);
      t :| 0 <= t < |s.pcs| && Flying(s.pcs[t]);
    }
    if s.pcs[t].CommitWait? {
      t :| 0 <= t < |s.pcs| && Leads(s.pcs[t]);
    }
  }
}
