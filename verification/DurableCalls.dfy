/** What callers of the durable database see. A run here says which thread took each step and
    which call it was offered, so that what is logged and what a row becomes can be set
    against the request that was made. */
module DurableCalls {
  import opened Basics
  import opened WalRecords
  import opened DurableThreads
  import opened DurableLog
  import opened DurableInvariant
  import opened DurableTheorems

  datatype Event = Took(thread: nat, choice: Choice) | Lost(keep: nat)

  ghost predicate Happened(s: State, e: Event, s': State) {
    match e
    case Took(t, c) => Ready(s, t) && Allowed(s, t, c) && s' == Step(s, t, c)
    case Lost(keep) => CrashKeeps(s.sh, keep) && s' == Crash(s, keep)
  }

  ghost predicate Labelled(states: seq<State>, events: seq<Event>) {
    && |states| == |events| + 1 && Init(states[0])
    && forall i :: 0 <= i < |events| ==> Happened(states[i], events[i], states[i + 1])
  }

  // Event i is a call of a mutation, made by some thread.
  predicate IsCall(states: seq<State>, events: seq<Event>, i: nat) {
    && i < |events| && i < |states| && events[i].Took? && events[i].choice.call.CallOp?
    && events[i].thread < |states[i].pcs| && states[i].pcs[events[i].thread].Idle?
  }

  function Caller(events: seq<Event>, i: nat): nat
    requires i < |events| && events[i].Took?
  {
    events[i].thread
  }

  // No crash since call i, and its thread is still at it in state m.
  ghost predicate During(states: seq<State>, events: seq<Event>, i: nat, m: nat) {
    && IsCall(states, events, i) && i < m < |states| && m <= |events|
    && (forall n :: i < n < m ==> events[n].Took?)
    && forall n :: i < n <= m ==> Caller(events, i) < |states[n].pcs| && !states[n].pcs[Caller(events, i)].Idle?
  }

  // Event m is a step of call i.
  ghost predicate StepOf(states: seq<State>, events: seq<Event>, i: nat, m: nat) {
    During(states, events, i, m) && m < |events| && events[m].Took? && events[m].thread == Caller(events, i)
  }

  // It is the step that applies the operation.
  ghost predicate Applies(states: seq<State>, events: seq<Event>, i: nat, m: nat) {
    && StepOf(states, events, i, m) && m + 1 < |states|
    && Caller(events, i) < |states[m + 1].pcs|
    && Pending(states[m].pcs[Caller(events, i)]).Some? && Pending(states[m + 1].pcs[Caller(events, i)]).None?
  }

  // The row that a request is to leave, given the row that was there.
  function Wanted(req: Request, row: Option<Row>): Option<Row> {
    match req
    case ReqInsert(vec, meta) => Some(Row(vec, meta))
    case ReqUpdate(_, vec, newMeta) =>
      if row.None? then None
      else if newMeta.Some? then Some(Row(vec, newMeta.value)) else Some(Row(vec, row.value.meta))
    case ReqSetMeta(_, meta) => if row.None? then None else Some(Row(row.value.vec, meta))
    case ReqRemove(_) => None
  }

  // ----- labelled runs are runs -----

  lemma LabelledRuns(states: seq<State>, events: seq<Event>)
    requires Labelled(states, events)
    ensures Run(states)
  {
    hide Init, Step, Crash, CrashKeeps, Ready, Allowed;
    forall i | 0 <= i < |states| - 1 ensures Follows(states[i], states[i + 1]) {
      assert Happened(states[i], events[i], states[i + 1]);
      EventFollows(states[i], events[i], states[i + 1]);
    }
  }

  lemma EventFollows(s: State, e: Event, s': State)
    requires Happened(s, e, s')
    ensures Follows(s, s')
  {
    hide Step, Recover, Ready, Allowed;
    match e
    case Took(t, c) => assert Ready(s, t) && Allowed(s, t, c) && s' == Step(s, t, c);
    case Lost(keep) => assert CrashKeeps(s.sh, keep) && s' == Crash(s, keep);
  }

  lemma LabelledStep(states: seq<State>, events: seq<Event>, m: nat)
    requires Labelled(states, events) && m < |events| && events[m].Took?
    ensures var s, t, c := states[m], events[m].thread, events[m].choice;
      Inv(s) && Ready(s, t) && Allowed(s, t, c) && Stepped(s, states[m + 1], t, c)
  {
    hide Inv, Step, Stepped, Ready, Allowed;
    LabelledRuns(states, events);
    RunKeepsInv(states, m);
    assert Happened(states[m], events[m], states[m + 1]);
    StepIs(states[m], events[m].thread, events[m].choice);
  }

  lemma Sizes(states: seq<State>, events: seq<Event>)
    requires Labelled(states, events)
    ensures |states| == |events| + 1
  {
  }

  // ----- how far a call has come -----

  // The record carries the request out, on the row that was there.
  predicate RecFor(req: Request, rec: Rec, row: Option<Row>) {
    match req
    case ReqInsert(vec, meta) => rec.act == Put(vec, meta)
    case ReqUpdate(id, vec, newMeta) =>
      rec.id == id && (newMeta.Some? || row.Some?) &&
      rec.act == Replace(vec, if newMeta.Some? then newMeta.value else row.value.meta)
    case ReqSetMeta(id, meta) => rec.id == id && rec.act == Relabel(meta)
    case ReqRemove(id) => rec.id == id && rec.act == Drop
  }

  // The row a request is about, as long as nothing was applied: none for an insert.
  function RowOf(rows: Rows, req: Request): Option<Row> {
    if req.ReqInsert? then None else Lookup(rows, req.id)
  }

  // On the way to the log, or logged and not applied.
  predicate Open(pc: PC) { pc.WantWrite? || pc.Append? || Pending(pc).Some? }

  // Where an open call stands: it carries the request, and the row is as it was.
  predicate Stands(s: State, req: Request, row: Option<Row>, pc: PC) {
    match pc
    case WantWrite(r) => r == req && RowOf(s.sh.rows, req) == row
    case Append(rec) => RecFor(req, rec, row) && Lookup(s.sh.rows, rec.id) == row
    case _ =>
      Pending(pc).Some? ==>
        RecFor(req, Pending(pc).value, row) && Lookup(s.sh.rows, Pending(pc).value.id) == row
  }

  // The first step of a mutation: it is refused, or wants the write mutex.
  lemma FirstStep(sh: Shared, c: Choice)
    requires c.call.CallOp?
    ensures var req, (sh', pc') := c.call.req, StepThread(sh, Idle, c);
      sh' == sh && (pc'.Idle? || pc' == WantWrite(req)) && (!req.ReqInsert? && req.id !in sh.rows ==> pc'.Idle?)
  {
  }

  // Open calls come from an idle thread's request, or from open calls.
  lemma OpenAfter(sh: Shared, pc: PC, c: Choice)
    requires Open(StepThread(sh, pc, c).1)
    ensures Open(pc) || (pc.Idle? && c.call.CallOp?)
  {
    hide Apply, Truncated, Max;
  }

  // A step of an open call keeps it on its request, up to the step that applies it.
  lemma OpenStep(s: State, t: nat, c: Choice, req: Request, row: Option<Row>)
    requires Inv(s) && Ready(s, t) && Open(s.pcs[t]) && Stands(s, req, row, s.pcs[t])
    ensures var (sh', pc') := StepThread(s.sh, s.pcs[t], c);
      && (Open(pc') ==> Stands(State(sh', s.pcs, s.rounds), req, row, pc'))
      && (!Open(pc') ==> pc'.Idle? || s.pcs[t].ApplyRec?)
  {
    hide LogOK, StableOK, SnapOK, RowsOK, LockOK, LeadOK, FlightOK, SleepOK, ThreadsOK, PendingIn, AppliedDurable,
      RoundsOK, Apply, Truncated, Max;
    if s.pcs[t].WantWrite? && req.ReqInsert? { assert s.sh.nextId !in s.sh.rows; }
  }

  // A step of another thread leaves the row alone.
  lemma OpenBeside(s: State, s': State, u: nat, c: Choice, t: nat, req: Request, row: Option<Row>)
    requires Inv(s) && Stepped(s, s', u, c) && u != t && t < |s.pcs| && Open(s.pcs[t])
    requires Stands(s, req, row, s.pcs[t])
    ensures Open(s'.pcs[t]) && Stands(s', req, row, s'.pcs[t])
  {
    hide LogOK, StableOK, SnapOK, RowsOK, LockOK, LeadOK, FlightOK, SleepOK, ThreadsOK, PendingIn, AppliedDurable,
      RoundsOK, Apply, StepThread, Notifies;
    PendingAfter(s.sh, s.pcs[u], c);
    assert Beside(s.pcs[t], s'.pcs[t]);
    if s.pcs[u].ApplyRec? {
      assert Busy(s.pcs[u]) == Some(s.pcs[u].rec.id);
      assert Busy(s.pcs[t]).Some? ==> Busy(s.pcs[t]) != Busy(s.pcs[u]);
      forall id | id != s.pcs[u].rec.id ensures Lookup(s'.sh.rows, id) == Lookup(s.sh.rows, id) {
        ApplyAt(s.sh.rows, s.pcs[u].rec, id);
      }
    }
  }

  // A thread that is not open does not become so while its call lasts.
  lemma ClosedStays(s: State, s': State, u: nat, c: Choice, t: nat)
    requires Stepped(s, s', u, c) && t < |s.pcs| && !Open(s.pcs[t]) && !s.pcs[t].Idle?
    ensures !Open(s'.pcs[t])
  {
    hide StepThread, Notifies;
    if u == t {
      if Open(s'.pcs[t]) { OpenAfter(s.sh, s.pcs[t], c); }
    } else {
      assert Beside(s.pcs[t], s'.pcs[t]);
    }
  }

  // The row before the call.
  function RowBefore(states: seq<State>, events: seq<Event>, i: nat): Option<Row>
    requires IsCall(states, events, i)
  {
    RowOf(states[i].sh.rows, events[i].choice.call.req)
  }

  // Call i has been applied by state m, by one of its steps.
  ghost predicate Applied(states: seq<State>, events: seq<Event>, i: nat, m: nat) {
    exists a: nat :: a < m && Applies(states, events, i, a)
  }

  lemma {:induction false} CallProgress(states: seq<State>, events: seq<Event>, i: nat, m: nat)
    requires Labelled(states, events) && During(states, events, i, m)
    ensures var t, req := Caller(events, i), events[i].choice.call.req;
      if Open(states[m].pcs[t]) then Stands(states[m], req, RowBefore(states, events, i), states[m].pcs[t])
      else Applied(states, events, i, m)
    decreases m
  {
    hide Labelled, Inv, Ready, Allowed, Stepped, StepThread, Stands, Open, Step;
    var t, req, p := Caller(events, i), events[i].choice.call.req, m - 1;
    LabelledStep(states, events, p);
    var s, s', u, c := states[p], states[m], events[p].thread, events[p].choice;
    if p == i {
      SteppedSelf(s, s', u, c);
      FirstStep(s.sh, c);
      FirstStands(s, s', t, c);
    } else {
      assert During(states, events, i, p);
      CallProgress(states, events, i, p);
      if !Open(s.pcs[t]) {
        ClosedStays(s, s', u, c, t);
        var a: nat :| a < p && Applies(states, events, i, a);
        assert a < m && Applies(states, events, i, a);
      } else if u == t {
        SteppedSelf(s, s', u, c);
        OpenStep(s, t, c, req, RowBefore(states, events, i));
        StandsIs(s', State(s'.sh, s.pcs, s.rounds), req, RowBefore(states, events, i), s'.pcs[t]);
        if !Open(s'.pcs[t]) {
          ApplyClears(s, t, s');
          assert Applies(states, events, i, p);
        }
      } else {
        OpenBeside(s, s', u, c, t, req, RowBefore(states, events, i));
      }
    }
  }

  lemma SteppedSelf(s: State, s': State, t: nat, c: Choice)
    requires Stepped(s, s', t, c)
    ensures t < |s.pcs| == |s'.pcs| && (s'.sh, s'.pcs[t]) == StepThread(s.sh, s.pcs[t], c)
  {
  }

  lemma FirstStands(s: State, s': State, t: nat, c: Choice)
    requires t < |s.pcs| == |s'.pcs| && c.call.CallOp? && s'.sh == s.sh && s'.pcs[t] == WantWrite(c.call.req)
    ensures Open(s'.pcs[t]) && Stands(s', c.call.req, RowOf(s.sh.rows, c.call.req), s'.pcs[t])
  {
  }

  lemma StandsIs(s: State, s': State, req: Request, row: Option<Row>, pc: PC)
    requires s.sh == s'.sh
    ensures Stands(s, req, row, pc) <==> Stands(s', req, row, pc)
  {
  }

  lemma ApplyClears(s: State, t: nat, s': State)
    requires t < |s.pcs| == |s'.pcs| && s.pcs[t].ApplyRec? && !Open(s'.pcs[t])
    ensures Pending(s.pcs[t]).Some? && Pending(s'.pcs[t]).None?
  {
  }

  // ----- what a call does to its row -----

  /** The contract of the mutations, from the request and the rows alone. When a call is
      applied, with no other call on its id beside it, its row turns from what it was when the
      call was made into what the request wants; an insert makes a row under a new id. Every
      other row stays. */
  lemma CallDoes(states: seq<State>, events: seq<Event>, i: nat, m: nat)
    requires Labelled(states, events) && Applies(states, events, i, m)
    ensures var req, id := events[i].choice.call.req, Pending(states[m].pcs[Caller(events, i)]).value.id;
      && (!req.ReqInsert? ==> id == req.id)
      && Lookup(states[m].sh.rows, id) == RowBefore(states, events, i)
      && Lookup(states[m + 1].sh.rows, id) == Wanted(req, RowBefore(states, events, i))
      && forall x: nat :: x != id ==> Lookup(states[m + 1].sh.rows, x) == Lookup(states[m].sh.rows, x)
  {
    hide Labelled, Inv, Ready, Allowed, Stepped, StepThread, Apply, Step, During;
    DuringParts(states, events, i, m);
    var t, req, row := Caller(events, i), events[i].choice.call.req, RowBefore(states, events, i);
    CallProgress(states, events, i, m);
    LabelledStep(states, events, m);
    var s, s', c := states[m], states[m + 1], events[m].choice;
    SteppedSelf(s, s', t, c);
    PendingAfter(s.sh, s.pcs[t], c);
    var rec := Pending(s.pcs[t]).value;
    assert Stands(s, req, row, s.pcs[t]);
    ApplyAt(s.sh.rows, rec, rec.id);
    forall x: nat | x != rec.id ensures Lookup(s'.sh.rows, x) == Lookup(s.sh.rows, x) { ApplyAt(s.sh.rows, rec, x); }
  }

  lemma DuringParts(states: seq<State>, events: seq<Event>, i: nat, m: nat)
    requires During(states, events, i, m)
    ensures IsCall(states, events, i) && i < m < |states| && m <= |events| && Caller(events, i) < |states[m].pcs|
  {
  }

  // Its other steps touch no row.
  lemma OtherStepsLeaveRows(states: seq<State>, events: seq<Event>, i: nat, m: nat)
    requires Labelled(states, events) && StepOf(states, events, i, m) && m + 1 < |states|
    requires !Applies(states, events, i, m)
    ensures states[m + 1].sh.rows == states[m].sh.rows
  {
    hide Labelled, Inv, Ready, Allowed, Stepped, StepThread, Apply, Step, During;
    DuringParts(states, events, i, m);
    LabelledStep(states, events, m);
    SteppedSelf(states[m], states[m + 1], Caller(events, i), events[m].choice);
    PendingAfter(states[m].sh, states[m].pcs[Caller(events, i)], events[m].choice);
  }

  // ----- what a call answers -----

  /** A mutation is refused at once, leaving everything as it is, exactly when it names an id
      that has no row; otherwise the call goes on. */
  lemma CallBegins(states: seq<State>, events: seq<Event>, i: nat)
    requires Labelled(states, events) && IsCall(states, events, i)
    ensures var t, req := Caller(events, i), events[i].choice.call.req;
      && t < |states[i + 1].pcs| && states[i + 1].sh == states[i].sh
      && (states[i + 1].pcs[t].Idle? <==> !req.ReqInsert? && RowBefore(states, events, i).None?)
      && (During(states, events, i, i + 1) <==> req.ReqInsert? || RowBefore(states, events, i).Some?)
  {
    hide Labelled, Inv, Ready, Allowed, Stepped, Step;
    Sizes(states, events);
    LabelledStep(states, events, i);
    SteppedSelf(states[i], states[i + 1], Caller(events, i), events[i].choice);
  }

  // A call that was taken up has a row to work on.
  lemma TakenUp(states: seq<State>, events: seq<Event>, i: nat, m: nat)
    requires Labelled(states, events) && During(states, events, i, m)
    ensures events[i].choice.call.req.ReqInsert? || RowBefore(states, events, i).Some?
  {
    hide Labelled, RowBefore;
    Sizes(states, events);
    CallBegins(states, events, i);
    assert During(states, events, i, i + 1);
  }

  /** Without a crash, a call that was taken up is applied before it returns. */
  lemma ReturnedIsApplied(states: seq<State>, events: seq<Event>, i: nat, m: nat)
    requires Labelled(states, events) && StepOf(states, events, i, m) && m + 1 < |states|
    requires Caller(events, i) < |states[m + 1].pcs| && states[m + 1].pcs[Caller(events, i)].Idle?
    ensures Applied(states, events, i, m + 1)
  {
    hide Labelled, Inv, Ready, Allowed, Stepped, StepThread, Stands, Open, Step, RowBefore, During;
    DuringParts(states, events, i, m);
    var t, req, row := Caller(events, i), events[i].choice.call.req, RowBefore(states, events, i);
    CallProgress(states, events, i, m);
    var s, s' := states[m], states[m + 1];
    if Open(s.pcs[t]) {
      LabelledStep(states, events, m);
      SteppedSelf(s, s', t, events[m].choice);
      TakenUp(states, events, i, m);
      GoesOn(s, t, events[m].choice, req, row);
      assert false;
    }
    var a: nat :| a < m && Applies(states, events, i, a);
    assert a < m + 1 && Applies(states, events, i, a);
  }

  // An open call with a row to work on does not end by a refusal.
  lemma GoesOn(s: State, t: nat, c: Choice, req: Request, row: Option<Row>)
    requires Inv(s) && Ready(s, t) && Open(s.pcs[t]) && Stands(s, req, row, s.pcs[t]) && (req.ReqInsert? || row.Some?)
    ensures !StepThread(s.sh, s.pcs[t], c).1.Idle?
  {
    hide Inv, Apply, Truncated, Max;
  }

  // ----- what a call logs -----

  // Event n is a step of the thread that made call i.
  predicate ByCaller(events: seq<Event>, i: nat, n: nat)
    requires i < |events| && events[i].Took?
  {
    n < |events| && events[n].Took? && events[n].thread == Caller(events, i)
  }

  // An operation joins the log; the mark of a checkpoint is none.
  predicate Logs(s: State, s': State) {
    |s.sh.hist| < |s'.sh.hist| && !s'.sh.hist[|s.sh.hist|].act.Mark?
  }

  // In step l call i has logged `rec`, and in no other step so far has it logged anything.
  ghost predicate HasLogged(states: seq<State>, events: seq<Event>, i: nat, m: nat, l: nat, rec: Rec) {
    && IsCall(states, events, i) && i < l < m < |states| && m <= |events| && ByCaller(events, i, l) && !rec.act.Mark?
    && states[l + 1].sh.hist == states[l].sh.hist + [rec]
    && forall n :: i <= n < m && ByCaller(events, i, n) && Logs(states[n], states[n + 1]) ==> n == l
  }

  ghost predicate LoggedNothing(states: seq<State>, events: seq<Event>, i: nat, m: nat) {
    && IsCall(states, events, i) && i < m < |states| && m <= |events|
    && forall n :: i <= n < m && ByCaller(events, i, n) ==> !Logs(states[n], states[n + 1])
  }

  // What one step of a thread does to the log.
  lemma LogStep(sh: Shared, pc: PC, c: Choice)
    ensures var (sh', pc') := StepThread(sh, pc, c);
      && (pc.Append? ==> sh'.hist == sh.hist + [pc.rec] && Pending(pc') == Some(pc.rec) && Open(pc'))
      && (pc.CkAppend? ==> exists r: Rec :: sh'.hist == sh.hist + [r] && r.act.Mark?)
      && (!pc.Append? && !pc.CkAppend? ==> sh'.hist == sh.hist)
      && (pc.WantWrite? ==> pc'.Idle? || pc'.Append?)
      && (Pending(pc).Some? ==> Pending(pc') == Pending(pc) || !Open(pc'))
      && (Pending(pc).Some? ==> !pc'.WantWrite? && !pc'.Append?)
  {
    hide Apply, Truncated, Max;
    if pc.CkAppend? { assert StepThread(sh, pc, c).0.hist == sh.hist + [Rec(sh.nextLsn, 0, Mark)]; }
  }

  // How much call i has logged by state m.
  ghost predicate LogProgress(states: seq<State>, events: seq<Event>, i: nat, m: nat)
    requires IsCall(states, events, i) && m < |states| && Caller(events, i) < |states[m].pcs|
  {
    var pc, req := states[m].pcs[Caller(events, i)], events[i].choice.call.req;
    if pc.WantWrite? || pc.Append? then LoggedNothing(states, events, i, m)
    else if Pending(pc).Some? then exists l: nat :: HasLogged(states, events, i, m, l, Pending(pc).value)
    else exists l: nat, rec: Rec ::
           HasLogged(states, events, i, m, l, rec) && RecFor(req, rec, RowBefore(states, events, i))
  }

  // The progress through one step: `s` and `s'` are states p and p + 1.
  lemma SilentStep(states: seq<State>, events: seq<Event>, i: nat, p: nat, l: nat, rec: Rec)
    requires p + 1 < |states| && p < |events| && HasLogged(states, events, i, p, l, rec)
    requires ByCaller(events, i, p) ==> !Logs(states[p], states[p + 1])
    ensures HasLogged(states, events, i, p + 1, l, rec)
  {
  }

  lemma StillNothing(states: seq<State>, events: seq<Event>, i: nat, p: nat)
    requires p + 1 < |states| && p < |events| && IsCall(states, events, i) && i <= p
    requires p == i || LoggedNothing(states, events, i, p)
    requires ByCaller(events, i, p) ==> !Logs(states[p], states[p + 1])
    ensures LoggedNothing(states, events, i, p + 1)
  {
  }

  lemma FirstLogged(states: seq<State>, events: seq<Event>, i: nat, p: nat, rec: Rec)
    requires p + 1 < |states| && p < |events| && LoggedNothing(states, events, i, p) && ByCaller(events, i, p)
    requires !rec.act.Mark? && states[p + 1].sh.hist == states[p].sh.hist + [rec]
    ensures HasLogged(states, events, i, p + 1, p, rec)
  {
  }

  lemma {:induction false} LogsOnce(states: seq<State>, events: seq<Event>, i: nat, m: nat)
    requires Labelled(states, events) && During(states, events, i, m)
    ensures LogProgress(states, events, i, m)
    decreases m
  {
    hide Labelled, Inv, Ready, Allowed, Stepped, StepThread, Step, During, Stands, RowBefore, HasLogged,
      LoggedNothing, Logs, ByCaller, LogProgress, Open;
    DuringParts(states, events, i, m);
    var t, p := Caller(events, i), m - 1;
    if p == i {
      StartsLog(states, events, i);
    } else {
      DuringBefore(states, events, i, m);
      DuringParts(states, events, i, p);
      LogsOnce(states, events, i, p);
      if events[p].thread == t { OwnLogStep(states, events, i, p); } else { BesideLogStep(states, events, i, p); }
    }
  }

  lemma DuringBefore(states: seq<State>, events: seq<Event>, i: nat, m: nat)
    requires During(states, events, i, m) && i + 1 < m
    ensures During(states, events, i, m - 1) && events[m - 1].Took? && !states[m].pcs[Caller(events, i)].Idle?
  {
  }

  lemma StartsLog(states: seq<State>, events: seq<Event>, i: nat)
    requires Labelled(states, events) && During(states, events, i, i + 1)
    ensures LogProgress(states, events, i, i + 1)
  {
    hide Labelled, Inv, Ready, Allowed, Stepped, StepThread, Step;
    LabelledStep(states, events, i);
    var s, s', t, c := states[i], states[i + 1], Caller(events, i), events[i].choice;
    SteppedSelf(s, s', t, c);
    FirstStep(s.sh, c);
    StillNothing(states, events, i, i);
  }

  // A step of the caller.
  lemma OwnLogStep(states: seq<State>, events: seq<Event>, i: nat, p: nat)
    requires Labelled(states, events) && During(states, events, i, p) && During(states, events, i, p + 1)
    requires events[p].Took? && events[p].thread == Caller(events, i)
    requires LogProgress(states, events, i, p)
    ensures LogProgress(states, events, i, p + 1)
  {
    hide Labelled, Inv, Ready, Allowed, Stepped, StepThread, Step, Stands, RowBefore, HasLogged, LoggedNothing;
    CallProgress(states, events, i, p);
    LabelledStep(states, events, p);
    var s, s', t, c := states[p], states[p + 1], Caller(events, i), events[p].choice;
    SteppedSelf(s, s', t, c);
    LogStep(s.sh, s.pcs[t], c);
    var pc, pc', req, row := s.pcs[t], s'.pcs[t], events[i].choice.call.req, RowBefore(states, events, i);
    if Open(pc) {
      StandsRec(s, req, row, pc);
      if pc.WantWrite? {
        StillNothing(states, events, i, p);
      } else if pc.Append? {
        FirstLogged(states, events, i, p, pc.rec);
      } else {
        var l: nat :| HasLogged(states, events, i, p, l, Pending(pc).value);
        SilentStep(states, events, i, p, l, Pending(pc).value);
      }
    } else {
      ClosedStays(s, s', t, c, t);
      var l: nat, rec: Rec :| HasLogged(states, events, i, p, l, rec) && RecFor(req, rec, row);
      SilentStep(states, events, i, p, l, rec);
    }
  }

  lemma StandsRec(s: State, req: Request, row: Option<Row>, pc: PC)
    requires Stands(s, req, row, pc)
    ensures pc.Append? ==> RecFor(req, pc.rec, row)
    ensures Pending(pc).Some? ==> RecFor(req, Pending(pc).value, row)
  {
  }

  // A step of another thread.
  lemma BesideLogStep(states: seq<State>, events: seq<Event>, i: nat, p: nat)
    requires Labelled(states, events) && During(states, events, i, p) && During(states, events, i, p + 1)
    requires events[p].Took? && events[p].thread != Caller(events, i)
    requires LogProgress(states, events, i, p)
    ensures LogProgress(states, events, i, p + 1)
  {
    hide Labelled, Inv, Ready, Allowed, StepThread, Step, RowBefore, HasLogged, LoggedNothing;
    LabelledStep(states, events, p);
    var s, s', t := states[p], states[p + 1], Caller(events, i);
    assert Beside(s.pcs[t], s'.pcs[t]);
    var pc, req, row := s.pcs[t], events[i].choice.call.req, RowBefore(states, events, i);
    if pc.WantWrite? || pc.Append? {
      StillNothing(states, events, i, p);
    } else if Pending(pc).Some? {
      var l: nat :| HasLogged(states, events, i, p, l, Pending(pc).value);
      SilentStep(states, events, i, p, l, Pending(pc).value);
    } else {
      var l: nat, rec: Rec :| HasLogged(states, events, i, p, l, rec) && RecFor(req, rec, row);
      SilentStep(states, events, i, p, l, rec);
    }
  }

  /** A call that was applied has logged one operation, in one earlier step, and the one that
      its request asks for on the row that was there. */
  lemma CallLogsOnce(states: seq<State>, events: seq<Event>, i: nat, m: nat) returns (l: nat)
    requires Labelled(states, events) && Applies(states, events, i, m)
    ensures HasLogged(states, events, i, m, l, Pending(states[m].pcs[Caller(events, i)]).value)
    ensures RecFor(events[i].choice.call.req, Pending(states[m].pcs[Caller(events, i)]).value,
                   RowBefore(states, events, i))
  {
    hide Labelled, During, HasLogged, RowBefore, RecFor, Stands;
    DuringParts(states, events, i, m);
    LogsOnce(states, events, i, m);
    CallProgress(states, events, i, m);
    StandsRec(states[m], events[i].choice.call.req, RowBefore(states, events, i), states[m].pcs[Caller(events, i)]);
    l :| HasLogged(states, events, i, m, l, Pending(states[m].pcs[Caller(events, i)]).value);
  }

  /** And so has a call that returned without a crash, in all its steps. */
  lemma ReturnedLogsOnce(states: seq<State>, events: seq<Event>, i: nat, m: nat) returns (l: nat, rec: Rec)
    requires Labelled(states, events) && StepOf(states, events, i, m) && m + 1 < |states|
    requires Caller(events, i) < |states[m + 1].pcs| && states[m + 1].pcs[Caller(events, i)].Idle?
    ensures HasLogged(states, events, i, m + 1, l, rec)
    ensures RecFor(events[i].choice.call.req, rec, RowBefore(states, events, i))
  {
    hide Labelled, Inv, Ready, Allowed, Stepped, StepThread, Stands, Open, Step, RowBefore, During, HasLogged, RecFor,
      Logs, LogProgress;
    DuringParts(states, events, i, m);
    var t, req, row := Caller(events, i), events[i].choice.call.req, RowBefore(states, events, i);
    var s, s', c := states[m], states[m + 1], events[m].choice;
    CallProgress(states, events, i, m);
    LogsOnce(states, events, i, m);
    LabelledStep(states, events, m);
    SteppedSelf(s, s', t, c);
    if Open(s.pcs[t]) {
      TakenUp(states, events, i, m);
      GoesOn(s, t, c, req, row);
      assert false;
    }
    l, rec := LoggedByNow(states, events, i, m);
    QuietStep(s.sh, s.pcs[t], c);
    assert !Logs(s, s') by { NothingLogged(s, s'); }
    SilentStep(states, events, i, m, l, rec);
  }

  lemma QuietStep(sh: Shared, pc: PC, c: Choice)
    requires !Open(pc) && StepThread(sh, pc, c).1.Idle?
    ensures StepThread(sh, pc, c).0.hist == sh.hist
  {
  }

  lemma NothingLogged(s: State, s': State)
    requires s'.sh.hist == s.sh.hist
    ensures !Logs(s, s')
  {
  }

  lemma LoggedByNow(states: seq<State>, events: seq<Event>, i: nat, m: nat) returns (l: nat, rec: Rec)
    requires IsCall(states, events, i) && m < |states| && Caller(events, i) < |states[m].pcs|
    requires LogProgress(states, events, i, m) && !Open(states[m].pcs[Caller(events, i)])
    ensures HasLogged(states, events, i, m, l, rec)
    ensures RecFor(events[i].choice.call.req, rec, RowBefore(states, events, i))
  {
    hide HasLogged, RecFor, RowBefore;
    l, rec :| HasLogged(states, events, i, m, l, rec)
              && RecFor(events[i].choice.call.req, rec, RowBefore(states, events, i));
  }

  // A thread that is on its way to the log, or has not applied what it logged, is at a call.
  lemma {:induction false} AtSomeCall(states: seq<State>, events: seq<Event>, t: nat, m: nat) returns (i: nat)
    requires Labelled(states, events) && m < |states| && t < |states[m].pcs| && Open(states[m].pcs[t])
    ensures During(states, events, i, m) && Caller(events, i) == t
    decreases m
  {
    hide Inv, Ready, Allowed, StepThread, Step, Open, Recover, CrashKeeps;
    assert !Open(Idle) by { NoneOpen(); }
    assert m > 0;
    assert Happened(states[m - 1], events[m - 1], states[m]);
    assert events[m - 1].Took?;
    LabelledStep(states, events, m - 1);
    var s, s', u, c := states[m - 1], states[m], events[m - 1].thread, events[m - 1].choice;
    if u == t {
      SteppedSelf(s, s', t, c);
      OpenAfter(s.sh, s.pcs[t], c);
    } else {
      assert Beside(s.pcs[t], s'.pcs[t]);
      OpenBefore(s.pcs[t], s'.pcs[t]);
    }
    if u == t && s.pcs[t].Idle? {
      i := m - 1;
    } else {
      i := AtSomeCall(states, events, t, m - 1);
    }
  }

  lemma NoneOpen()
    ensures !Open(Idle)
  {
  }

  lemma OpenBefore(pc: PC, pc': PC)
    requires Beside(pc, pc') && Open(pc')
    ensures Open(pc) && !pc.Idle?
  {
  }

  /** What joins the log is the operation of some call, on the row that was there. */
  lemma OpHasCall(states: seq<State>, events: seq<Event>, l: nat) returns (i: nat, rec: Rec)
    requires Labelled(states, events) && l < |events| && l + 1 < |states| && events[l].Took?
    requires Logs(states[l], states[l + 1])
    ensures StepOf(states, events, i, l) && HasLogged(states, events, i, l + 1, l, rec)
    ensures RecFor(events[i].choice.call.req, rec, RowBefore(states, events, i))
  {
    hide Labelled, Inv, Ready, Allowed, Stepped, StepThread, Step, Stands, RowBefore, HasLogged, LoggedNothing, During;
    var t := events[l].thread;
    LabelledStep(states, events, l);
    var s, s', c := states[l], states[l + 1], events[l].choice;
    SteppedSelf(s, s', t, c);
    LogStep(s.sh, s.pcs[t], c);
    assert s.pcs[t].Append?;
    i := AtSomeCall(states, events, t, l);
    rec := s.pcs[t].rec;
    DuringParts(states, events, i, l);
    CallProgress(states, events, i, l);
    StandsRec(s, events[i].choice.call.req, RowBefore(states, events, i), s.pcs[t]);
    LogsOnce(states, events, i, l);
    FirstLogged(states, events, i, l, rec);
  }
}
