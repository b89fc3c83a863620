/** The durable database as a state machine: many writers that log, commit and apply,
    checkpoints that wait for them, and crashes followed by recovery. */
module DurableThreads {
  import opened Basics
  import opened WalRecords

  // ----- the logical database -----

  datatype Row = Row(vec: seq<Word>, meta: Record)
  type Rows = map<nat, Row>

  // An operation of the log. Lsns and ids are counted without a bound.
  datatype Rec = Rec(lsn: nat, id: nat, act: Act)
  datatype Act =
    | Put(vec: seq<Word>, meta: Record)
    | Replace(vec: seq<Word>, meta: Record)
    | Relabel(meta: Record)
    | Drop
    | Mark

  // `apply_`.
  function Apply(rows: Rows, r: Rec): Rows {
    match r.act
    case Put(vec, meta) => rows[r.id := Row(vec, meta)]
    case Replace(vec, meta) => if r.id in rows then rows[r.id := Row(vec, meta)] else rows
    case Relabel(meta) => if r.id in rows then rows[r.id := rows[r.id].(meta := meta)] else rows
    case Drop => rows - {r.id}
    case Mark => rows
  }

  function Replay(rows: Rows, recs: seq<Rec>): Rows {
    if recs == [] then rows else Apply(Replay(rows, recs[..|recs| - 1]), recs[|recs| - 1])
  }

  // The records beyond lsn l, and the others.
  function Tail(recs: seq<Rec>, l: nat): seq<Rec> {
    if recs == [] then []
    else Tail(recs[..|recs| - 1], l) + (if recs[|recs| - 1].lsn > l then [recs[|recs| - 1]] else [])
  }

  function Head(recs: seq<Rec>, l: nat): seq<Rec> {
    if recs == [] then []
    else Head(recs[..|recs| - 1], l) + (if recs[|recs| - 1].lsn > l then [] else [recs[|recs| - 1]])
  }

  function Max(a: nat, b: nat): nat { if a >= b then a else b }

  function MaxLsn(recs: seq<Rec>): nat {
    if recs == [] then 0 else Max(MaxLsn(recs[..|recs| - 1]), recs[|recs| - 1].lsn)
  }

  // The next id after a replay: ahead of every id that was put.
  function NextId(next: nat, recs: seq<Rec>): nat {
    if recs == [] then next
    else
      var n, r := NextId(next, recs[..|recs| - 1]), recs[|recs| - 1];
      if r.act.Put? && r.id >= n then r.id + 1 else n
  }

  // ----- state -----

  datatype Policy = PerOpSync | Periodic
  datatype Snapshot = Snapshot(lsn: nat, rows: Rows, nextId: nat)

  /** What the threads share. `wal` is the log as the file system shows it, of which a
      crash keeps at least the records up to lsn `stable`; `hist` is every operation
      logged so far, reclaimed or not. Neither `stable` nor `hist` is known to the code. */
  datatype Shared = Shared(
    policy: Policy, checkpointOps: nat,
    rows: Rows, nextId: nat,
    nextLsn: nat, durable: nat, syncing: bool, inFlight: nat, opsSince: nat, locked: bool,
    wal: seq<Rec>, highest: nat, snap: Snapshot,
    stable: nat, hist: seq<Rec>)

  datatype Request =
    | ReqInsert(vec: seq<Word>, meta: Record)
    | ReqUpdate(id: nat, vec: seq<Word>, newMeta: Option<Record>)
    | ReqSetMeta(id: nat, meta: Record)
    | ReqRemove(id: nat)

  // On whose behalf a thread runs `Wal::sync`.
  datatype Goal =
    | ForCommit(rec: Rec, ckpt: bool)
    | ForFlush(ckpt: bool)
    | ForCaller
    | ForCheckpoint(lsn: nat)

  datatype PC =
    | Idle
    | WantWrite(req: Request)
    | Append(rec: Rec)
    | Enter(rec: Rec)
    | Commit(rec: Rec, ckpt: bool)
    | CommitWait(rec: Rec, ckpt: bool)
    | Capture(goal: Goal)
    | Fsync(goal: Goal, target: nat)
    | Synced(goal: Goal, target: nat)
    | ApplyRec(rec: Rec, ckpt: bool)
    | Flush(ckpt: bool)
    | Finish(ckpt: bool)
    | CkWantWrite
    | CkDrain
    | CkDrainWait
    | CkSave
    | CkAppend(lsn: nat)
    | CkTruncate(lsn: nat)
    | CkDone(lsn: nat)

  // Threads that hold write_mutex_.
  predicate Owns(pc: PC) {
    match pc
    case Append(_) => true
    case Enter(_) => true
    case CkDrain => true
    case CkDrainWait => true
    case CkSave => true
    case CkAppend(_) => true
    case Capture(goal) => goal.ForCheckpoint?
    case Fsync(goal, _) => goal.ForCheckpoint?
    case Synced(goal, _) => goal.ForCheckpoint?
    case CkTruncate(_) => true
    case CkDone(_) => true
    case _ => false
  }

  predicate WantsWrite(pc: PC) { pc.WantWrite? || pc.CkWantWrite? }

  // The thread that syncs for everyone, while `syncing_` is set.
  predicate Leads(pc: PC) {
    (pc.Capture? || pc.Fsync? || pc.Synced?) && (pc.goal.ForCommit? || pc.goal.ForFlush?)
  }

  // An operation that is logged but not applied.
  function Pending(pc: PC): Option<Rec> {
    match pc
    case Enter(rec) => Some(rec)
    case Commit(rec, _) => Some(rec)
    case CommitWait(rec, _) => Some(rec)
    case Capture(goal) => if goal.ForCommit? then Some(goal.rec) else None
    case Fsync(goal, _) => if goal.ForCommit? then Some(goal.rec) else None
    case Synced(goal, _) => if goal.ForCommit? then Some(goal.rec) else None
    case ApplyRec(rec, _) => Some(rec)
    case _ => None
  }

  // The id that a thread's mutation is about, until it is applied.
  function Busy(pc: PC): Option<nat> {
    if pc.WantWrite? then (if pc.req.ReqInsert? then None else Some(pc.req.id))
    else if pc.Append? then Some(pc.rec.id)
    else if Pending(pc).Some? then Some(Pending(pc).value.id)
    else None
  }

  // Threads counted by `in_flight_`.
  predicate Flying(pc: PC) {
    match pc
    case Enter(_) => false
    case Capture(goal) => goal.ForCommit? || goal.ForFlush?
    case Fsync(goal, _) => goal.ForCommit? || goal.ForFlush?
    case Synced(goal, _) => goal.ForCommit? || goal.ForFlush?
    case Flush(_) => true
    case Finish(_) => true
    case _ => Pending(pc).Some?
  }

  // Waiting on the condition variable.
  predicate Sleeps(pc: PC) { pc.CommitWait? || pc.CkDrainWait? }

  // ----- the steps -----

  /** What a step is given from outside: the call an idle thread makes, whether the flush
      interval has passed, and how much of the log a truncate reclaims. */
  datatype Choice = Choice(call: Call, due: bool, cut: nat)
  datatype Call = CallOp(req: Request) | CallCheckpoint | CallSync

  // `contains`, then the write mutex.
  function Begin(sh: Shared, call: Call): PC {
    match call
    case CallOp(req) => if req.ReqInsert? || req.id in sh.rows then WantWrite(req) else Idle
    case CallCheckpoint => CkWantWrite
    case CallSync => Capture(ForCaller)
  }

  // The serial prefix: mint the id, assign the lsn.
  function Prefix(sh: Shared, req: Request): (Shared, PC) {
    match req
    case ReqInsert(vec, meta) =>
      (sh.(nextId := sh.nextId + 1, nextLsn := sh.nextLsn + 1, locked := true),
       Append(Rec(sh.nextLsn, sh.nextId, Put(vec, meta))))
    case ReqUpdate(id, vec, meta) =>
      if meta.None? && id !in sh.rows then (sh, Idle)
      else
        var effective := if meta.Some? then meta.value else sh.rows[id].meta;
        (sh.(nextLsn := sh.nextLsn + 1, locked := true), Append(Rec(sh.nextLsn, id, Replace(vec, effective))))
    case ReqSetMeta(id, meta) =>
      (sh.(nextLsn := sh.nextLsn + 1, locked := true), Append(Rec(sh.nextLsn, id, Relabel(meta))))
    case ReqRemove(id) =>
      (sh.(nextLsn := sh.nextLsn + 1, locked := true), Append(Rec(sh.nextLsn, id, Drop)))
  }

  // `Wal::append`.
  function Log(sh: Shared, r: Rec): Shared {
    sh.(wal := sh.wal + [r], highest := Max(sh.highest, r.lsn), hist := sh.hist + [r])
  }

  // The end of the serial prefix: one more operation in flight; the write mutex is released.
  function EnterFlight(sh: Shared, rec: Rec): (Shared, PC) {
    var ckpt := sh.opsSince + 1 >= sh.checkpointOps;
    (sh.(inFlight := sh.inFlight + 1, opsSince := if ckpt then 0 else sh.opsSince + 1, locked := false),
     if sh.policy.PerOpSync? then Commit(rec, ckpt) else ApplyRec(rec, ckpt))
  }

  // After `Wal::sync` returned.
  function AfterSync(sh: Shared, goal: Goal, target: nat): (Shared, PC) {
    match goal
    case ForCommit(rec, ckpt) =>
      (sh.(durable := Max(sh.durable, target), syncing := false), Commit(rec, ckpt))
    case ForFlush(ckpt) => (sh.(durable := Max(sh.durable, target), syncing := false), Finish(ckpt))
    case ForCaller => (sh.(durable := Max(sh.durable, target)), Idle)
    case ForCheckpoint(lsn) => (sh, CkTruncate(lsn))
  }

  // `truncate` reclaims records from the front, none beyond the bound.
  function Truncated(wal: seq<Rec>, upto: nat, cut: nat): seq<Rec> {
    if cut <= |wal| && (forall i :: 0 <= i < cut ==> wal[i].lsn <= upto) then wal[cut..] else wal
  }

  function StepThread(sh: Shared, pc: PC, c: Choice): (Shared, PC) {
    match pc
    case Idle => (sh, Begin(sh, c.call))
    case WantWrite(req) => Prefix(sh, req)
    case Append(rec) => (Log(sh, rec), Enter(rec))
    case Enter(rec) => EnterFlight(sh, rec)
    case Commit(rec, ckpt) =>
      if sh.durable >= rec.lsn then (sh, ApplyRec(rec, ckpt))
      else if sh.syncing then (sh, CommitWait(rec, ckpt))
      else (sh.(syncing := true), Capture(ForCommit(rec, ckpt)))
    case CommitWait(rec, ckpt) => (sh, Commit(rec, ckpt))
    case Capture(goal) => (sh, Fsync(goal, sh.highest))
    case Fsync(goal, target) => (sh.(stable := Max(sh.stable, target)), Synced(goal, target))
    case Synced(goal, target) => AfterSync(sh, goal, target)
    case ApplyRec(rec, ckpt) =>
      (sh.(rows := Apply(sh.rows, rec)), if sh.policy.Periodic? then Flush(ckpt) else Finish(ckpt))
    case Flush(ckpt) =>
      if sh.syncing || !c.due then (sh, Finish(ckpt)) else (sh.(syncing := true), Capture(ForFlush(ckpt)))
    case Finish(ckpt) =>
      (sh.(inFlight := if sh.inFlight > 0 then sh.inFlight - 1 else 0), if ckpt then CkWantWrite else Idle)
    case CkWantWrite => (sh.(locked := true), CkDrain)
    case CkDrain => (sh, if sh.inFlight == 0 then CkSave else CkDrainWait)
    case CkDrainWait => (sh, CkDrain)
    case CkSave =>
      var lsn := if sh.nextLsn > 0 then sh.nextLsn - 1 else 0;
      (sh.(snap := Snapshot(lsn, sh.rows, sh.nextId)), CkAppend(lsn))
    case CkAppend(lsn) =>
      (Log(sh.(nextLsn := sh.nextLsn + 1), Rec(sh.nextLsn, 0, Mark)), Capture(ForCheckpoint(lsn)))
    case CkTruncate(lsn) => (sh.(wal := Truncated(sh.wal, lsn, c.cut)), CkDone(lsn))
    case CkDone(lsn) => (sh.(durable := Max(sh.durable, lsn), locked := false), Idle)
  }

  // Steps that end in `notify_all`.
  predicate Notifies(pc: PC) { pc.Finish? || (pc.Synced? && Leads(pc)) }

  function Wake(pc: PC): PC {
    match pc
    case CommitWait(rec, ckpt) => Commit(rec, ckpt)
    case CkDrainWait => CkDrain
    case _ => pc
  }

  /** rounds[t] counts the leader's syncs that were completed since thread t appended its
      record and while that record was not yet known to be durable. */
  datatype State = State(sh: Shared, pcs: seq<PC>, rounds: seq<nat>)

  // A thread that wants the write mutex waits for it. (A sleeper may wake by itself.)
  predicate Ready(s: State, t: nat) {
    t < |s.pcs| == |s.rounds| && (WantsWrite(s.pcs[t]) ==> !s.sh.locked)
  }

  // Concurrent mutations are about different ids: a new call names no id that another
  // thread's mutation is about.
  predicate Allowed(s: State, t: nat, c: Choice) {
    t < |s.pcs| &&
    (s.pcs[t].Idle? && c.call.CallOp? && !c.call.req.ReqInsert? ==>
      forall u :: 0 <= u < |s.pcs| && u != t ==> Busy(s.pcs[u]) != Some(c.call.req.id))
  }

  function Rounds(s: State, t: nat, pc': PC): seq<nat>
    requires t < |s.pcs| == |s.rounds|
  {
    seq(|s.rounds|, u requires 0 <= u < |s.rounds| =>
      if u == t && s.pcs[t].Append? then 0
      else if s.pcs[t].Synced? && Leads(s.pcs[t]) && Pending(s.pcs[u]).Some?
              && s.sh.durable < Pending(s.pcs[u]).value.lsn then s.rounds[u] + 1
      else s.rounds[u])
  }

  function Step(s: State, t: nat, c: Choice): State
    requires Ready(s, t)
  {
    var (sh', pc') := StepThread(s.sh, s.pcs[t], c);
    var others := if Notifies(s.pcs[t])
                  then seq(|s.pcs|, u requires 0 <= u < |s.pcs| => Wake(s.pcs[u])) else s.pcs;
    State(sh', others[t := pc'], Rounds(s, t, pc'))
  }

  // ----- crash and recovery -----

  // `recover_`: the snapshot, then the log records beyond it. The log file is what a loss of
  // power left, so all of it is on disk.
  function Recover(policy: Policy, checkpointOps: nat, snap: Snapshot, wal: seq<Rec>, hist: seq<Rec>): Shared {
    var tail := Tail(wal, snap.lsn);
    var next := Max(snap.lsn, MaxLsn(wal)) + 1;
    Shared(policy, checkpointOps, Replay(snap.rows, tail), NextId(snap.nextId, tail),
           next, next - 1, false, 0, 0, false,
           wal, MaxLsn(wal), snap, MaxLsn(wal), hist)
  }

  // A crash keeps the first `keep` records, among them everything that is stable.
  predicate CrashKeeps(sh: Shared, keep: nat) {
    keep <= |sh.wal| && forall i :: keep <= i < |sh.wal| ==> sh.wal[i].lsn > sh.stable
  }

  // The operations that the surviving snapshot and log still cover.
  function Survivors(sh: Shared, keep: nat): seq<Rec>
    requires keep <= |sh.wal|
  {
    Head(sh.hist, sh.snap.lsn) + Tail(sh.wal[..keep], sh.snap.lsn)
  }

  function Crash(s: State, keep: nat): State
    requires keep <= |s.sh.wal|
  {
    State(Recover(s.sh.policy, s.sh.checkpointOps, s.sh.snap, s.sh.wal[..keep], Survivors(s.sh, keep)),
          seq(|s.pcs|, _ => Idle), s.rounds)
  }

  // A new database directory: no snapshot (an empty one at lsn 0), an empty log.
  ghost predicate Init(s: State) {
    && s.sh == Recover(s.sh.policy, s.sh.checkpointOps, Snapshot(0, map[], 0), [], [])
    && |s.rounds| == |s.pcs| && forall t :: 0 <= t < |s.pcs| ==> s.pcs[t].Idle?
  }

  ghost predicate Follows(s: State, s': State) {
    || (exists t: nat, c: Choice :: Ready(s, t) && Allowed(s, t, c) && s' == Step(s, t, c))
    || (exists keep: nat :: CrashKeeps(s.sh, keep) && s' == Crash(s, keep))
  }

  ghost predicate Run(states: seq<State>) {
    && states != [] && Init(states[0])
    && forall i :: 0 <= i < |states| - 1 ==> Follows(states[i], states[i + 1])
  }
}
