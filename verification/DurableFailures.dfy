/** Calls that fail. An operation is logged and counted as in flight before anything looks at
    its record; applying a record that does not conform throws, and what should take it out
    of the count again is skipped. Here is what that does to checkpoints, within one session:
    from some reachable state on, up to the next crash. */
module DurableFailures {
  import opened Basics
  import W = WalRecords
  import opened DurableThreads
  import opened DurableLog
  import opened DurableInvariant
  import opened DurableTheorems
  import MetaTable

  // The record an operation carries, if any.
  function MetaOf(a: Act): Option<W.Record> {
    match a
    case Put(_, meta) => Some(meta)
    case Replace(_, meta) => Some(meta)
    case Relabel(meta) => Some(meta)
    case _ => None
  }

  // What `validate` accepts; nothing asks before the record is in the log.
  predicate Conforming(schema: seq<MetaTable.Spec>, a: Act) {
    MetaOf(a).Some? ==> MetaTable.Conforms(schema, MetaOf(a).value)
  }

  // A state of the session, and how many of its calls have failed.
  datatype Faulty = Faulty(s: State, failed: nat)

  // The thread's next step applies a record that does not conform.
  predicate Throws(schema: seq<MetaTable.Spec>, pc: PC) {
    pc.ApplyRec? && !Conforming(schema, pc.rec.act)
  }

  // The exception leaves the call: nothing was applied, and `finish_op_` is not reached.
  function Failed(f: Faulty, t: nat): Faulty
    requires t < |f.s.pcs|
  {
    Faulty(f.s.(pcs := f.s.pcs[t := Idle]), f.failed + 1)
  }

  ghost predicate Goes(schema: seq<MetaTable.Spec>, f: Faulty, f': Faulty) {
    || (exists t: nat, c: Choice :: Ready(f.s, t) && Allowed(f.s, t, c) && !Throws(schema, f.s.pcs[t])
          && f' == Faulty(Step(f.s, t, c), f.failed))
    || (exists t: nat :: t < |f.s.pcs| && Throws(schema, f.s.pcs[t]) && f' == Failed(f, t))
  }

  ghost predicate Session(schema: seq<MetaTable.Spec>, fs: seq<Faulty>) {
    && fs != [] && fs[0].failed == 0 && Inv(fs[0].s)
    && forall i :: 0 <= i < |fs| - 1 ==> Goes(schema, fs[i], fs[i + 1])
  }

  predicate Drains(pc: PC) { pc.CkDrain? || pc.CkDrainWait? }

  // A call of the session failed, or one that is in flight is going to.
  ghost predicate Doomed(schema: seq<MetaTable.Spec>, f: Faulty) {
    f.failed > 0 || exists t :: 0 <= t < |f.s.pcs| && Dooms(schema, f.s.pcs[t])
  }

  predicate Dooms(schema: seq<MetaTable.Spec>, pc: PC) {
    Pending(pc).Some? && !Conforming(schema, Pending(pc).value.act)
  }

  // ----- what a session keeps -----

  // Failed calls stay in the count. Until the first of them all is well; after it no
  // checkpoint gets to save.
  ghost predicate Sound(f: Faulty) {
    && f.s.sh.inFlight == Flights(f.s.pcs) + f.failed
    && (f.failed == 0 ==> Inv(f.s))
    && (f.failed > 0 ==> forall t :: 0 <= t < |f.s.pcs| ==> !f.s.pcs[t].CkSave?)
  }

  lemma StepKeepsSound(f: Faulty, t: nat, c: Choice)
    requires Sound(f) && Ready(f.s, t) && Allowed(f.s, t, c)
    ensures Sound(Faulty(Step(f.s, t, c), f.failed))
  {
    hide Inv, StepThread, Step, Notifies, Allowed;
    var s, s' := f.s, Step(f.s, t, c);
    StepIs(s, t, c);
    FlyingAfter(s.sh, s.pcs[t], c);
    FlightsSet(s.pcs, t, s'.pcs[t]);
    FlightsSame(s.pcs[t := s'.pcs[t]], s'.pcs);
    if Flights(s.pcs) == 0 { FlightsZero(s.pcs, t); }
    if f.failed == 0 {
      StepKeepsInv(s, t, c);
    } else {
      SaveAfter(s.sh, s.pcs[t], c);
      forall u | 0 <= u < |s'.pcs| ensures !s'.pcs[u].CkSave? {
        if u != t { assert Beside(s.pcs[u], s'.pcs[u]); }
      }
    }
  }

  // Only a drain that finds nothing in flight goes on to save.
  lemma SaveAfter(sh: Shared, pc: PC, c: Choice)
    ensures StepThread(sh, pc, c).1.CkSave? <==> pc.CkDrain? && sh.inFlight == 0
  {
    hide Apply, Truncated, Max;
  }

  lemma FailureKeepsSound(schema: seq<MetaTable.Spec>, f: Faulty, t: nat)
    requires Sound(f) && t < |f.s.pcs| && Throws(schema, f.s.pcs[t])
    ensures Sound(Failed(f, t))
  {
    hide LogOK, StableOK, SnapOK, IdsOK, RowsOK, LockOK, LeadOK, SleepOK, PendingIn, AppliedDurable, RoundsOK;
    FlightsSet(f.s.pcs, t, Idle);
    forall u | 0 <= u < |f.s.pcs| ensures !f.s.pcs[u].CkSave? {
      if f.failed == 0 && f.s.pcs[u].CkSave? {
        assert PcOK(f.s.sh, f.s.pcs[u]);
        FlightsZero(f.s.pcs, t);
      }
    }
  }

  lemma GoesKeepsSound(schema: seq<MetaTable.Spec>, f: Faulty, f': Faulty)
    requires Sound(f) && Goes(schema, f, f')
    ensures Sound(f') && |f'.s.pcs| == |f.s.pcs| && f'.failed >= f.failed
  {
    hide Sound, Allowed, Step, Throws;
    if t: nat, c: Choice :| Ready(f.s, t) && Allowed(f.s, t, c) && !Throws(schema, f.s.pcs[t])
                             && f' == Faulty(Step(f.s, t, c), f.failed) {
      StepKeepsSound(f, t, c);
      StepIs(f.s, t, c);
    } else {
      var t: nat :| t < |f.s.pcs| && Throws(schema, f.s.pcs[t]) && f' == Failed(f, t);
      FailureKeepsSound(schema, f, t);
    }
  }

  lemma {:induction false} SessionIsSound(schema: seq<MetaTable.Spec>, fs: seq<Faulty>, i: nat)
    requires Session(schema, fs) && i < |fs|
    ensures Sound(fs[i]) && |fs[i].s.pcs| == |fs[0].s.pcs|
  {
    hide Inv, Goes;
    if i == 0 {
      assert FlightOK(fs[0].s) by { InvFlight(fs[0].s); }
    } else {
      SessionIsSound(schema, fs, i - 1);
      assert Goes(schema, fs[i - 1], fs[(i - 1) + 1]);
      GoesKeepsSound(schema, fs[i - 1], fs[i]);
    }
  }

  lemma InvFlight(s: State)
    requires Inv(s)
    ensures FlightOK(s) && LockOK(s) && SleepOK(s) && |s.rounds| == |s.pcs|
  {
  }

  // ----- doomed sessions never save again -----

  lemma GoesStaysDoomed(schema: seq<MetaTable.Spec>, f: Faulty, f': Faulty)
    requires Goes(schema, f, f') && Doomed(schema, f)
    ensures Doomed(schema, f')
  {
    hide StepThread, Step, Conforming, Allowed;
    if t: nat, c: Choice :| Ready(f.s, t) && Allowed(f.s, t, c) && !Throws(schema, f.s.pcs[t])
                             && f' == Faulty(Step(f.s, t, c), f.failed) {
      StepIs(f.s, t, c);
      PendingAfter(f.s.sh, f.s.pcs[t], c);
      if f.failed == 0 {
        var u :| 0 <= u < |f.s.pcs| && Dooms(schema, f.s.pcs[u]);
        if u != t { assert Beside(f.s.pcs[u], f'.s.pcs[u]); }
        assert Dooms(schema, f'.s.pcs[u]);
      }
    }
  }

  // While a thread drains, no other is in the serial prefix.
  lemma OneOwner(s: State, t: nat, u: nat)
    requires LockOK(s) && t < |s.pcs| && u < |s.pcs| && Drains(s.pcs[t])
    ensures !s.pcs[u].Enter? && !s.pcs[u].Append?
  {
  }

  // In a doomed state something is in flight while a thread drains.
  lemma DoomedFlies(schema: seq<MetaTable.Spec>, f: Faulty, t: nat)
    requires Sound(f) && Doomed(schema, f) && t < |f.s.pcs| && Drains(f.s.pcs[t])
    ensures f.s.sh.inFlight > 0
  {
    hide Inv, Conforming;
    if f.failed == 0 {
      InvFlight(f.s);
      var u :| 0 <= u < |f.s.pcs| && Dooms(schema, f.s.pcs[u]);
      OneOwner(f.s, t, u);
      if Flights(f.s.pcs) == 0 { FlightsZero(f.s.pcs, u); }
    }
  }

  lemma DoomedDrains(schema: seq<MetaTable.Spec>, f: Faulty, f': Faulty, t: nat)
    requires Sound(f) && Goes(schema, f, f') && Doomed(schema, f) && t < |f.s.pcs| && Drains(f.s.pcs[t])
    ensures t < |f'.s.pcs| && Drains(f'.s.pcs[t])
  {
    hide Sound, Step, Conforming, Allowed, Doomed, Apply, Truncated, Max;
    DoomedFlies(schema, f, t);
    if u: nat, c: Choice :| Ready(f.s, u) && Allowed(f.s, u, c) && !Throws(schema, f.s.pcs[u])
                             && f' == Faulty(Step(f.s, u, c), f.failed) {
      StepIs(f.s, u, c);
      if u != t { assert Beside(f.s.pcs[t], f'.s.pcs[t]); }
    }
  }

  /** Once a call with a record that does not conform is in flight, a checkpoint that waits for
      the operations in flight waits for ever, and with it whoever wants the write mutex. */
  lemma {:induction false} DoomedWaitsForEver(schema: seq<MetaTable.Spec>, fs: seq<Faulty>, i: nat, j: nat, t: nat)
    requires Session(schema, fs) && i <= j < |fs| && t < |fs[i].s.pcs|
    requires Doomed(schema, fs[i]) && Drains(fs[i].s.pcs[t])
    ensures Doomed(schema, fs[j]) && t < |fs[j].s.pcs| && Drains(fs[j].s.pcs[t])
    decreases j
  {
    hide Doomed, Goes, Inv, Sound;
    if i < j {
      DoomedWaitsForEver(schema, fs, i, j - 1, t);
      SessionIsSound(schema, fs, j - 1);
      assert Goes(schema, fs[j - 1], fs[(j - 1) + 1]);
      GoesStaysDoomed(schema, fs[j - 1], fs[j]);
      DoomedDrains(schema, fs[j - 1], fs[j], t);
    }
  }

  // ----- and all others can -----

  // How long a thread stays in flight, if whoever syncs for everyone goes first.
  function Rank(durable: nat, pc: PC): nat {
    match pc
    case CommitWait(_, _) => 11
    case Commit(rec, _) => if durable >= rec.lsn then 4 else 8
    case Capture(goal) => if goal.ForCommit? then 7 else if goal.ForFlush? then 4 else 0
    case Fsync(goal, target) =>
      if goal.ForCommit? then (if Max(durable, target) >= goal.rec.lsn then 6 else 10)
      else if goal.ForFlush? then 3 else 0
    case Synced(goal, target) =>
      if goal.ForCommit? then (if Max(durable, target) >= goal.rec.lsn then 5 else 9)
      else if goal.ForFlush? then 2 else 0
    case ApplyRec(_, _) => 3
    case Flush(_) => 2
    case Finish(_) => 1
    case _ => 0
  }

  function Work(durable: nat, pcs: seq<PC>): nat {
    if pcs == [] then 0 else Work(durable, pcs[..|pcs| - 1]) + Rank(durable, pcs[|pcs| - 1])
  }

  lemma {:induction false} LessWork(d: nat, d': nat, a: seq<PC>, b: seq<PC>, t: nat)
    requires |a| == |b| && d <= d'
    requires forall u :: 0 <= u < |a| ==> Rank(d', b[u]) <= Rank(d, a[u])
    ensures Work(d', b) <= Work(d, a)
    ensures t < |a| && Rank(d', b[t]) < Rank(d, a[t]) ==> Work(d', b) < Work(d, a)
  {
    hide Rank;
    if a != [] {
      var n := |a| - 1;
      LessWork(d, d', a[..n], b[..n], t);
    }
  }

  // A step that goes first: a leader's, or with no leader any thread's in flight.
  predicate First(s: State, t: nat) {
    t < |s.pcs| && Flying(s.pcs[t]) && (Leads(s.pcs[t]) || (!s.sh.syncing && !s.pcs[t].CommitWait?))
  }

  const LATER: Choice := Choice(CallSync, false, 0)

  lemma RankFalls(sh: Shared, pc: PC)
    requires PcOK(sh, pc) && Flying(pc) && (Leads(pc) || (!sh.syncing && !pc.CommitWait?))
    ensures var (sh', pc') := StepThread(sh, pc, LATER);
      Rank(sh'.durable, pc') < Rank(sh.durable, pc) && sh'.durable >= sh.durable
  {
    hide Apply, Truncated;
  }

  lemma RankStays(d: nat, d': nat, pc: PC)
    requires d <= d'
    ensures Rank(d', pc) <= Rank(d, pc) && Rank(d', Wake(pc)) <= Rank(d, pc)
  {
  }

  lemma WorkFalls(s: State, t: nat)
    requires Inv(s) && First(s, t)
    ensures Ready(s, t) && Allowed(s, t, LATER)
    ensures Work(Step(s, t, LATER).sh.durable, Step(s, t, LATER).pcs) < Work(s.sh.durable, s.pcs)
  {
    hide StepThread, Rank, Notifies, LogOK, StableOK, SnapOK, IdsOK, RowsOK, LockOK, LeadOK, FlightOK, SleepOK, PcOK,
      PendingIn, AppliedDurable, Leads, Pending;
    FirstIsReady(s, t);
    var s' := Step(s, t, LATER);
    StepIs(s, t, LATER);
    assert PcOK(s.sh, s.pcs[t]);
    RankFalls(s.sh, s.pcs[t]);
    forall u | 0 <= u < |s.pcs| ensures Rank(s'.sh.durable, s'.pcs[u]) <= Rank(s.sh.durable, s.pcs[u]) {
      if u != t { RankStays(s.sh.durable, s'.sh.durable, s.pcs[u]); }
    }
    LessWork(s.sh.durable, s'.sh.durable, s.pcs, s'.pcs, t);
  }

  lemma FirstIsReady(s: State, t: nat)
    requires Inv(s) && First(s, t)
    ensures Ready(s, t) && Allowed(s, t, LATER)
  {
  }

  // While something is in flight, someone can go first.
  lemma SomeoneFirst(s: State) returns (t: nat)
    requires Inv(s) && Flights(s.pcs) > 0
    ensures First(s, t)
  {
    hide LogOK, StableOK, SnapOK, IdsOK, RowsOK, ThreadsOK, AppliedDurable, PendingIn;
    FlightsSome(s.pcs);
    t :| 0 <= t < |s.pcs| && Flying(s.pcs[t]);
    if s.sh.syncing {
      t :| 0 <= t < |s.pcs| && Leads(s.pcs[t]);
    }
  }

  lemma ExtendSession(schema: seq<MetaTable.Spec>, fs: seq<Faulty>, f: Faulty)
    requires Session(schema, fs) && Goes(schema, fs[|fs| - 1], f)
    ensures Session(schema, fs + [f])
  {
    hide Goes, Inv;
    var more := fs + [f];
    forall i | 0 <= i < |more| - 1 ensures Goes(schema, more[i], more[i + 1]) {
      if i < |fs| - 1 { assert Goes(schema, fs[i], fs[i + 1]); }
    }
  }

  // Going first, a thread of a session that is not doomed does not throw.
  lemma FirstGoes(schema: seq<MetaTable.Spec>, f: Faulty, u: nat, t: nat)
    requires Sound(f) && !Doomed(schema, f) && First(f.s, u) && t < |f.s.pcs| && Drains(f.s.pcs[t])
    ensures Ready(f.s, u) && Goes(schema, f, Faulty(Step(f.s, u, LATER), f.failed))
    ensures var f' := Faulty(Step(f.s, u, LATER), f.failed);
      !Doomed(schema, f') && t < |f'.s.pcs| && Drains(f'.s.pcs[t])
  {
    hide Inv, StepThread, Step, Conforming;
    FirstIsReady(f.s, u);
    assert !Dooms(schema, f.s.pcs[u]);
    var s' := Step(f.s, u, LATER);
    StepIs(f.s, u, LATER);
    PendingAfter(f.s.sh, f.s.pcs[u], LATER);
    forall v | 0 <= v < |s'.pcs| ensures !Dooms(schema, s'.pcs[v]) {
      assert !Dooms(schema, f.s.pcs[v]);
      if v != u { assert Beside(f.s.pcs[v], s'.pcs[v]); }
    }
    if t != u { assert Beside(f.s.pcs[t], s'.pcs[t]); }
  }

  // Let everything in flight finish, and then save.
  lemma {:induction false} DrainCompletes(schema: seq<MetaTable.Spec>, fs: seq<Faulty>, t: nat)
    returns (more: seq<Faulty>)
    requires Session(schema, fs) && !Doomed(schema, fs[|fs| - 1])
    requires t < |fs[|fs| - 1].s.pcs| && Drains(fs[|fs| - 1].s.pcs[t])
    ensures Session(schema, more) && fs <= more
    ensures t < |more[|more| - 1].s.pcs| && more[|more| - 1].s.pcs[t].CkSave?
    decreases Work(fs[|fs| - 1].s.sh.durable, fs[|fs| - 1].s.pcs)
  {
    hide Inv, Session, Goes, Step, Doomed, First, Work;
    SessionEnds(schema, fs);
    var f := fs[|fs| - 1];
    InvFlight(f.s);
    if Flights(f.s.pcs) > 0 {
      var u := SomeoneFirst(f.s);
      FirstGoes(schema, f, u, t);
      WorkFalls(f.s, u);
      var f' := Faulty(Step(f.s, u, LATER), f.failed);
      ExtendSession(schema, fs, f');
      more := DrainCompletes(schema, fs + [f'], t);
    } else {
      SaveGoes(schema, f, t);
      var f' := Faulty(Step(f.s, t, LATER), f.failed);
      ExtendSession(schema, fs, f');
      more := fs + [f'];
    }
  }

  lemma SessionEnds(schema: seq<MetaTable.Spec>, fs: seq<Faulty>)
    requires Session(schema, fs) && !Doomed(schema, fs[|fs| - 1])
    ensures fs != [] && fs[|fs| - 1].failed == 0 && Inv(fs[|fs| - 1].s) && Sound(fs[|fs| - 1])
  {
    hide Inv;
    SessionIsSound(schema, fs, |fs| - 1);
  }

  lemma SaveGoes(schema: seq<MetaTable.Spec>, f: Faulty, t: nat)
    requires FlightOK(f.s) && SleepOK(f.s) && |f.s.rounds| == |f.s.pcs| && Flights(f.s.pcs) == 0
    requires t < |f.s.pcs| && Drains(f.s.pcs[t])
    ensures Ready(f.s, t) && Goes(schema, f, Faulty(Step(f.s, t, LATER), f.failed))
    ensures t < |Step(f.s, t, LATER).pcs| && Step(f.s, t, LATER).pcs[t].CkSave?
  {
    assert Allowed(f.s, t, LATER);
  }

  /** A checkpoint that waits for the operations in flight can still go on to save if and only
      if no call of the session failed on its record, and none that is in flight is going to. */
  lemma DrainIff(schema: seq<MetaTable.Spec>, fs: seq<Faulty>, t: nat)
    requires Session(schema, fs) && t < |fs[|fs| - 1].s.pcs| && Drains(fs[|fs| - 1].s.pcs[t])
    ensures (exists more: seq<Faulty> ::
               && Session(schema, more) && fs <= more && t < |more[|more| - 1].s.pcs|
               && more[|more| - 1].s.pcs[t].CkSave?) <==>
      !Doomed(schema, fs[|fs| - 1])
  {
    hide Doomed, Goes, Inv;
    if !Doomed(schema, fs[|fs| - 1]) {
      var more := DrainCompletes(schema, fs, t);
    } else {
      forall more: seq<Faulty> | Session(schema, more) && fs <= more && t < |more[|more| - 1].s.pcs|
        ensures !more[|more| - 1].s.pcs[t].CkSave?
      {
        DoomedWaitsForEver(schema, more, |fs| - 1, |more| - 1, t);
      }
    }
  }

  // ----- it happens -----

  function Fresh(): State {
    State(Recover(Periodic, 1000, Snapshot(0, map[], 0), [], []), [Idle], [0])
  }

  lemma FreshIs()
    ensures Inv(Fresh()) && Fresh().sh.inFlight == 0 && Fresh().sh.opsSince == 0 && Fresh().sh.policy == Periodic
    ensures Fresh().sh.checkpointOps == 1000 && Fresh().pcs == [Idle] && |Fresh().rounds| == 1 && !Fresh().sh.locked
  {
    InitInv(Fresh());
  }

  // One more step of the only thread.
  lemma Alone(schema: seq<MetaTable.Spec>, fs: seq<Faulty>, c: Choice) returns (more: seq<Faulty>)
    requires Session(schema, fs) && |fs[|fs| - 1].s.pcs| == |fs[|fs| - 1].s.rounds| == 1
    requires var f := fs[|fs| - 1]; !Throws(schema, f.s.pcs[0]) && (WantsWrite(f.s.pcs[0]) ==> !f.s.sh.locked)
    ensures Session(schema, more) && fs <= more
    ensures var f, f' := fs[|fs| - 1], more[|more| - 1];
      && |f'.s.pcs| == |f'.s.rounds| == 1 && f'.failed == f.failed
      && (f'.s.sh, f'.s.pcs[0]) == StepThread(f.s.sh, f.s.pcs[0], c)
  {
    hide Inv, StepThread, Throws;
    var f := fs[|fs| - 1];
    assert Allowed(f.s, 0, c);
    ExtendSession(schema, fs, Faulty(Step(f.s, 0, c), f.failed));
    more := fs + [Faulty(Step(f.s, 0, c), f.failed)];
    StepIs(f.s, 0, c);
  }

  /** One insert of any record that does not conform, then a checkpoint: it drains, nobody else
      is at work, and one operation is in flight for good. */
  lemma FailedInsert(schema: seq<MetaTable.Spec>, vec: seq<W.Word>, meta: W.Record) returns (fs: seq<Faulty>)
    requires !MetaTable.Conforms(schema, meta)
    ensures Session(schema, fs)
    ensures var f := fs[|fs| - 1]; f.s.pcs == [CkDrain] && f.s.sh.inFlight == 1 && Doomed(schema, f)
  {
    hide Inv, Session, MetaTable.Conforms, Fresh;
    FreshIs();
    var insert := Choice(CallOp(ReqInsert(vec, meta)), false, 0);
    fs := [Faulty(Fresh(), 0)];
    StartSession(schema, Fresh());
    fs := Alone(schema, fs, insert);
    fs := Alone(schema, fs, insert);
    fs := Alone(schema, fs, insert);
    fs := Alone(schema, fs, insert);
    var f := fs[|fs| - 1];
    assert Throws(schema, f.s.pcs[0]);
    ExtendSession(schema, fs, Failed(f, 0));
    fs := fs + [Failed(f, 0)];
    var save := Choice(CallCheckpoint, false, 0);
    fs := Alone(schema, fs, save);
    fs := Alone(schema, fs, save);
  }

  lemma StartSession(schema: seq<MetaTable.Spec>, s: State)
    requires Inv(s)
    ensures Session(schema, [Faulty(s, 0)])
  {
    hide Inv;
  }
}
