/** Replaying the log into the database object: each record does to the object what the
    durability model says it does to the logical map. */
module VectorDbReplay {
  import opened Basics
  import W = WalRecords
  import D = DurableThreads
  import DurableLog
  import opened DurablePuts
  import opened DurableFailures
  import opened MetaTable
  import opened MetadataStores
  import opened VectorDbs

  predicate Truthful(a: D.Act) {
    MetaOf(a).Some? ==> TruthValues(MetaOf(a).value)
  }

  // The same operation with its nulls spelled out, as the database stores it.
  function Spelled(schema: seq<Spec>, r: D.Rec): D.Rec {
    match r.act
    case Put(vec, meta) => r.(act := D.Put(vec, Normal(schema, meta)))
    case Replace(vec, meta) => r.(act := D.Replace(vec, Normal(schema, meta)))
    case Relabel(meta) => r.(act := D.Relabel(Normal(schema, meta)))
    case _ => r
  }

  function SpelledAll(schema: seq<Spec>, recs: seq<D.Rec>): (out: seq<D.Rec>)
    ensures |out| == |recs| && forall i :: 0 <= i < |recs| ==> out[i] == Spelled(schema, recs[i])
  {
    seq(|recs|, i requires 0 <= i < |recs| => Spelled(schema, recs[i]))
  }

  // No record puts an id that is there already.
  ghost predicate Replayable(schema: seq<Spec>, rows: D.Rows, recs: seq<D.Rec>) {
    forall i :: 0 <= i < |recs| ==>
      && Truthful(recs[i].act)
      && (recs[i].act.Put? ==> recs[i].id !in D.Replay(rows, SpelledAll(schema, recs)[..i]))
  }

  // Spelling nulls out does not change which ids a replay has.
  lemma {:induction false} SameIds(schema: seq<Spec>, rows: D.Rows, rows': D.Rows, recs: seq<D.Rec>)
    requires rows.Keys == rows'.Keys
    ensures D.Replay(rows, SpelledAll(schema, recs)).Keys == D.Replay(rows', recs).Keys
  {
    hide Normal;
    var all := SpelledAll(schema, recs);
    if recs != [] {
      var n := |recs| - 1;
      assert SpelledAll(schema, recs[..n]) == all[..n];
      SameIds(schema, rows, rows', recs[..n]);
    }
  }

  /** What recovery replays onto the snapshot of any reachable state, after any crash, can be
      replayed: it never puts an id twice. */
  lemma RecoveryIsReplayable(schema: seq<Spec>, states: seq<D.State>, i: nat, keep: nat, rows: D.Rows)
    requires D.Run(states) && i < |states| && D.CrashKeeps(states[i].sh, keep)
    requires rows.Keys == states[i].sh.snap.rows.Keys
    requires forall k :: 0 <= k < |states[i].sh.wal| ==> Truthful(states[i].sh.wal[k].act)
    ensures var sh := states[i].sh; Replayable(schema, rows, D.Tail(sh.wal[..keep], sh.snap.lsn))
  {
    hide D.Run, Truthful;
    var sh := states[i].sh;
    var tail := D.Tail(sh.wal[..keep], sh.snap.lsn);
    DurableLog.TailMembers(sh.wal[..keep], sh.snap.lsn);
    forall k | 0 <= k < |tail|
      ensures Truthful(tail[k].act)
      ensures tail[k].act.Put? ==> tail[k].id !in D.Replay(rows, SpelledAll(schema, tail)[..k])
    {
      assert tail[k] in tail;
      PutsAreNew(states, i, keep, k);
      SameIds(schema, rows, sh.snap.rows, tail[..k]);
      assert SpelledAll(schema, tail[..k]) == SpelledAll(schema, tail)[..k];
    }
  }

  // `apply_`. A record that does not conform throws, and changes nothing.
  method ApplyRecord(db: VDB, r: D.Rec) returns (ok: bool)
    requires db.Valid() && Truthful(r.act) && Free(db.pending, r.id)
    requires r.act.Put? ==> r.id !in db.Logical()
    modifies db, db.meta
    ensures db.Valid() && db.pending == old(db.pending) && (ok <==> Conforming(db.schema, r.act))
    ensures db.Logical() == if ok then D.Apply(old(db.Logical()), Spelled(db.schema, r)) else old(db.Logical())
  {
    hide LogicalOf, TableOK, Conforms, TruthValues, ColumnsOK, AllPending, Held, Bounded, MetadataStore.Valid,
      MetadataStore.Contents;
    TableRows(db.pending, db.extToInt, db.intToExt, db.deleted);
    LogicalAt(db.extToInt, db.vectors, db.meta.Contents(), r.id);
    ok := true;
    match r.act {
      case Put(vec, meta) =>
        ok := db.InsertReserved(r.id, vec, meta);
      case Replace(vec, meta) =>
        var begun := db.Update(r.id, vec, Some(meta));
        ok := !begun.Invalid?;
      case Relabel(meta) =>
        var begun := db.SetMetadata(r.id, meta);
        ok := !begun.Invalid?;
      case Drop =>
        var found := db.Remove(r.id);
      case Mark =>
    }
  }

  // The replay loop of `recover_`: the logical map is the fold of the records. It stops at
  // the first record that does not conform, so the database opens if and only if there
  // is none.
  method ReplayInto(db: VDB, recs: seq<D.Rec>) returns (n: nat)
    requires db.Valid() && db.pending == map[] && Replayable(db.schema, db.Logical(), recs)
    modifies db, db.meta
    ensures db.Valid() && db.pending == map[]
    ensures n <= |recs| && db.Logical() == D.Replay(old(db.Logical()), SpelledAll(db.schema, recs)[..n])
    ensures forall i :: 0 <= i < n ==> Conforming(db.schema, recs[i].act)
    ensures n < |recs| ==> !Conforming(db.schema, recs[n].act)
    ensures n == |recs| <==> forall i :: 0 <= i < |recs| ==> Conforming(db.schema, recs[i].act)
  {
    hide VDB.Valid, VDB.Logical, D.Apply, Conforms, TruthValues;
    ghost var all, rows := SpelledAll(db.schema, recs), db.Logical();
    assert all[..0] == [];
    for i := 0 to |recs|
      invariant db.Valid() && db.pending == map[] && db.Logical() == D.Replay(rows, all[..i])
      invariant forall k :: 0 <= k < i ==> Conforming(db.schema, recs[k].act)
    {
      assert all[..i + 1][..i] == all[..i];
      var ok := ApplyRecord(db, recs[i]);
      if !ok { return i; }
    }
    n := |recs|;
  }
}
