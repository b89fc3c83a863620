/** Why replay never puts an id that is there already: ids are handed out and logged in one
    order, so every put in the log names an id beyond all earlier ones. */
module DurablePuts {
  import opened Basics
  import opened WalRecords
  import opened DurableThreads
  import opened DurableLog
  import opened DurableInvariant
  import opened DurableTheorems

  ghost predicate PutsRise(recs: seq<Rec>) {
    forall i, j :: 0 <= i < j < |recs| && recs[i].act.Put? && recs[j].act.Put? ==> recs[i].id < recs[j].id
  }

  // A put about to be logged is beyond all that were.
  ghost predicate PutsOK(s: State) {
    && PutsRise(s.sh.hist)
    && forall t :: 0 <= t < |s.pcs| && s.pcs[t].Append? && s.pcs[t].rec.act.Put? ==>
         IdsBelow(s.sh.hist, s.pcs[t].rec.id)
  }

  lemma AppendAfter(sh: Shared, pc: PC, c: Choice)
    ensures var (sh', pc') := StepThread(sh, pc, c);
      pc'.Append? && pc'.rec.act.Put? ==> pc.WantWrite? && pc'.rec.id == sh.nextId
  {
    hide Apply, Truncated, Max;
  }

  lemma StepKeepsPuts(s: State, t: nat, c: Choice)
    requires Inv(s) && Ready(s, t) && PutsOK(s)
    ensures PutsOK(Step(s, t, c))
  {
    hide LogOK, StableOK, SnapOK, RowsOK, LeadOK, FlightOK, SleepOK, ThreadsOK, PendingIn, AppliedDurable, RoundsOK,
      StepThread, Step, Notifies, Pending;
    var s' := Step(s, t, c);
    StepIs(s, t, c);
    PendingAfter(s.sh, s.pcs[t], c);
    AppendAfter(s.sh, s.pcs[t], c);
    forall u | 0 <= u < |s'.pcs| && s'.pcs[u].Append? && s'.pcs[u].rec.act.Put?
      ensures IdsBelow(s'.sh.hist, s'.pcs[u].rec.id)
    {
      if u != t { assert s.pcs[u] == s'.pcs[u] && Owns(s.pcs[u]); }
    }
  }

  lemma CrashKeepsPuts(s: State, keep: nat)
    requires Inv(s) && CrashKeeps(s.sh, keep) && PutsOK(s)
    ensures PutsOK(Crash(s, keep))
  {
    hide Inv, Recover, Survivors, CrashKeeps;
    var m := CrashKeepsInv(s, keep);
  }

  lemma {:induction false} RunKeepsPuts(states: seq<State>, i: nat)
    requires Run(states) && i < |states|
    ensures Inv(states[i]) && PutsOK(states[i])
  {
    hide Inv, PutsOK, Crash, Step, Allowed, Ready;
    RunKeepsInv(states, i);
    if i == 0 {
      StartPuts(states[0]);
    } else {
      RunKeepsPuts(states, i - 1);
      var s, s' := states[i - 1], states[i];
      assert Follows(s, states[(i - 1) + 1]);
      if t: nat, c: Choice :| Ready(s, t) && Allowed(s, t, c) && s' == Step(s, t, c) {
        StepKeepsPuts(s, t, c);
      } else {
        var keep: nat :| CrashKeeps(s.sh, keep) && s' == Crash(s, keep);
        CrashKeepsPuts(s, keep);
      }
    }
  }

  lemma StartPuts(s: State)
    requires Init(s)
    ensures PutsOK(s)
  {
  }

  // The ids of a replay were there before or were put.
  lemma {:induction false} ReplayedIds(rows: Rows, recs: seq<Rec>, id: nat)
    requires id in Replay(rows, recs) && id !in rows
    ensures exists i :: 0 <= i < |recs| && recs[i].act.Put? && recs[i].id == id
  {
    var rest, last := recs[..|recs| - 1], recs[|recs| - 1];
    if last.act.Put? && last.id == id {
      assert recs[|recs| - 1].act.Put?;
    } else {
      ReplayedIds(rows, rest, id);
      var i :| 0 <= i < |rest| && rest[i].act.Put? && rest[i].id == id;
      assert recs[i] == rest[i];
    }
  }

  /** After a crash at any step of any run: no record that recovery replays puts an id that is
      in the database when its turn comes. */
  lemma PutsAreNew(states: seq<State>, i: nat, keep: nat, k: nat)
    requires Run(states) && i < |states| && CrashKeeps(states[i].sh, keep)
    requires var sh := states[i].sh; k < |Tail(sh.wal[..keep], sh.snap.lsn)|
    ensures var sh := states[i].sh;
      var tail := Tail(sh.wal[..keep], sh.snap.lsn);
      tail[k].act.Put? ==> tail[k].id !in Replay(sh.snap.rows, tail[..k])
  {
    hide Inv, Run, Tail, Head, Effect;
    RunKeepsPuts(states, i);
    var sh := states[i].sh;
    InvLog(states[i]);
    var l := sh.snap.lsn;
    var head, tail := Head(sh.hist, l), Tail(sh.wal[..keep], l);
    var m := SurvivorsPrefix(sh, keep);
    assert sh.hist[..m] == head + tail;
    var before := head + tail[..k];
    if sh.hist[|head| + k].act.Put? { PutsBelow(sh.hist, |head| + k); }
    assert sh.hist[..|head| + k] == before && sh.hist[|head| + k] == tail[k];
    ReplayConcat(map[], head, tail[..k]);
    assert Replay(sh.snap.rows, tail[..k]) == Effect(before) by { EffectIs(head); EffectIs(before); }
    if tail[k].act.Put? && tail[k].id in Effect(before) {
      EffectIs(before);
      ReplayedIds(map[], before, tail[k].id);
    }
  }

  lemma PutsBelow(recs: seq<Rec>, n: nat)
    requires PutsRise(recs) && n < |recs| && recs[n].act.Put?
    ensures IdsBelow(recs[..n], recs[n].id)
  {
  }

  lemma EffectIs(recs: seq<Rec>)
    ensures Effect(recs) == Replay(map[], recs)
  {
  }

  lemma InvLog(s: State)
    requires Inv(s)
    ensures LogOK(s.sh) && s.sh.snap.rows == Effect(Head(s.sh.hist, s.sh.snap.lsn))
  {
  }
}
