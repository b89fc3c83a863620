/** The database: stable external ids over rows that come, go and move. A row is appended
    pending, then published; what is removed or replaced stays as a tombstone until the
    rows are compacted. */
module VectorDbs {
  import opened Basics
  import W = WalRecords
  import D = DurableThreads
  import opened MetaColumn
  import opened MetaResolve
  import opened MetaTable
  import opened MetadataStores

  type Vec = seq<W.Word>

  /** An insert or an update between its two locked phases: its id, what its row holds, and
      for an update the row to be replaced. */
  datatype Ticket = Inserting(ext: nat, row: D.Row) | Updating(ext: nat, row: D.Row, was: nat)

  // The map from ids to rows is the inverse of the list of ids, on the live rows.
  ghost predicate IdsOK(extToInt: map<nat, nat>, intToExt: seq<nat>, deleted: seq<bool>) {
    && |deleted| == |intToExt|
    && (forall e :: e in extToInt ==>
          extToInt[e] < |intToExt| && !deleted[extToInt[e]] && intToExt[extToInt[e]] == e)
    && forall i :: 0 <= i < |intToExt| && !deleted[i] ==> intToExt[i] in extToInt && extToInt[intToExt[i]] == i
  }

  // A pending row is a tombstone still; no two pending operations are about one id.
  ghost predicate TicketsOK(pending: map<nat, Ticket>, extToInt: map<nat, nat>, intToExt: seq<nat>, deleted: seq<bool>)
    requires |deleted| == |intToExt|
  {
    && (forall i :: i in pending ==> i < |intToExt| && deleted[i] && pending[i].ext == intToExt[i])
    && (forall i :: i in pending && pending[i].Inserting? ==> pending[i].ext !in extToInt)
    && (forall i :: i in pending && pending[i].Updating? ==>
          pending[i].ext in extToInt && extToInt[pending[i].ext] == pending[i].was)
    && forall i, j :: i in pending && j in pending && i != j ==> pending[i].ext != pending[j].ext
  }

  // Whether an update was begun: an invalid record, an unknown id, or the rows it is about.
  datatype Begun = Invalid | Unknown | Begun(iid: nat, was: nat)

  // No pending operation is about e.
  ghost predicate Free(pending: map<nat, Ticket>, e: nat) {
    forall i :: i in pending ==> pending[i].ext != e
  }

  ghost predicate TableOK(pending: map<nat, Ticket>, extToInt: map<nat, nat>, intToExt: seq<nat>, deleted: seq<bool>) {
    IdsOK(extToInt, intToExt, deleted) && TicketsOK(pending, extToInt, intToExt, deleted)
  }

  ghost predicate AllPending(pending: map<nat, Ticket>, trails: seq<Trail>) {
    forall i :: i in pending ==> PostedEverywhere(trails, i)
  }

  // Nothing changes a pending row.
  ghost predicate Held(pending: map<nat, Ticket>, vectors: seq<Vec>, recs: seq<W.Record>) {
    forall i :: i in pending ==> i < |vectors| && i < |recs| && pending[i].row == D.Row(vectors[i], recs[i])
  }

  ghost predicate Bounded(intToExt: seq<nat>, next: nat) {
    forall i :: 0 <= i < |intToExt| ==> intToExt[i] < next
  }

  function Flags(live: seq<bool>): (d: seq<bool>)
    ensures |d| == |live| && forall i :: 0 <= i < |d| ==> d[i] == !live[i]
  {
    seq(|live|, i requires 0 <= i < |live| => !live[i])
  }

  function LogicalOf(extToInt: map<nat, nat>, vectors: seq<Vec>, recs: seq<W.Record>): D.Rows {
    map e | e in extToInt && extToInt[e] < |vectors| && extToInt[e] < |recs| ::
      D.Row(vectors[extToInt[e]], recs[extToInt[e]])
  }

  // ----- what each step does to the table -----

  lemma AppendTable(pending: map<nat, Ticket>, extToInt: map<nat, nat>, intToExt: seq<nat>, deleted: seq<bool>,
    t: Ticket)
    requires TableOK(pending, extToInt, intToExt, deleted) && Free(pending, t.ext)
    requires t.Inserting? ==> t.ext !in extToInt
    requires t.Updating? ==> t.ext in extToInt && extToInt[t.ext] == t.was
    ensures TableOK(pending[|intToExt| := t], extToInt, intToExt + [t.ext], deleted + [true])
  {
  }

  lemma AppendPending(pending: map<nat, Ticket>, trails: seq<Trail>, vectors: seq<Vec>, recs: seq<W.Record>, t: Ticket)
    requires AllPending(pending, trails) && forall a :: 0 <= a < |trails| ==> |trails[a].posted| == |recs|
    requires Held(pending, vectors, recs) && |vectors| == |recs|
    ensures AllPending(pending[|recs| := t], AppendTrails(trails))
    ensures Held(pending[|recs| := t], vectors + [t.row.vec], recs + [t.row.meta])
  {
    forall i | i in pending[|recs| := t] ensures PostedEverywhere(AppendTrails(trails), i) {
      if i in pending { assert PostedEverywhere(trails, i); }
    }
  }

  lemma PublishInsert(pending: map<nat, Ticket>, extToInt: map<nat, nat>, intToExt: seq<nat>, deleted: seq<bool>,
    iid: nat)
    requires TableOK(pending, extToInt, intToExt, deleted) && iid in pending && pending[iid].Inserting?
    ensures iid < |deleted| && deleted[iid] && pending[iid].ext == intToExt[iid] && intToExt[iid] !in extToInt
    ensures TableOK(pending - {iid}, extToInt[intToExt[iid] := iid], intToExt, deleted[iid := false])
  {
  }

  lemma PublishUpdate(pending: map<nat, Ticket>, extToInt: map<nat, nat>, intToExt: seq<nat>, deleted: seq<bool>,
    iid: nat)
    requires TableOK(pending, extToInt, intToExt, deleted) && iid in pending && pending[iid].Updating?
    ensures iid < |deleted| && deleted[iid] && pending[iid].ext == intToExt[iid]
    ensures var t := pending[iid];
      && t.was < |deleted| && !deleted[t.was] && t.ext in extToInt && extToInt[t.ext] == t.was
      && TableOK(pending - {iid}, extToInt[t.ext := iid], intToExt, deleted[iid := false][t.was := true])
  {
  }

  lemma RemoveRow(pending: map<nat, Ticket>, extToInt: map<nat, nat>, intToExt: seq<nat>, deleted: seq<bool>, e: nat)
    requires TableOK(pending, extToInt, intToExt, deleted) && Free(pending, e) && e in extToInt
    ensures extToInt[e] < |deleted| && !deleted[extToInt[e]]
    ensures TableOK(pending, extToInt - {e}, intToExt, deleted[extToInt[e] := true])
  {
  }

  lemma FewerPending(pending: map<nat, Ticket>, trails: seq<Trail>, vectors: seq<Vec>, recs: seq<W.Record>, iid: nat)
    requires AllPending(pending, trails) && Held(pending, vectors, recs)
    ensures AllPending(pending - {iid}, trails) && Held(pending - {iid}, vectors, recs)
    ensures iid in pending ==>
      PostedEverywhere(trails, iid) && iid < |vectors| && iid < |recs| &&
        pending[iid].row == D.Row(vectors[iid], recs[iid])
  {
  }

  /** Publishing a row under an id keeps the table of ids sound if and only if no row has that
      id: otherwise two live rows claim it. So ids come from `reserve_id`, or from the log. */
  lemma PublishIff(pending: map<nat, Ticket>, extToInt: map<nat, nat>, intToExt: seq<nat>, deleted: seq<bool>, e: nat)
    requires TableOK(pending, extToInt, intToExt, deleted) && Free(pending, e)
    ensures TableOK(pending, extToInt[e := |intToExt|], intToExt + [e], deleted + [false]) <==> e !in extToInt
  {
    var exts, flags := intToExt + [e], deleted + [false];
    if e in extToInt {
      var was := extToInt[e];
      assert !flags[was] && exts[was] == e && extToInt[e := |intToExt|][exts[was]] != was;
    }
  }

  lemma FlagsFlip(live: seq<bool>, id: nat, up: bool)
    requires id < |live|
    ensures Flags(live[id := up]) == Flags(live)[id := !up]
  {
  }

  lemma MapGrows(m: map<nat, nat>, k: nat, v: nat)
    ensures |m[k := v]| == |m| + (if k in m then 0 else 1)
    ensures k in m ==> |m - {k}| == |m| - 1
  {
    assert m[k := v].Keys == m.Keys + {k};
    assert (m - {k}).Keys == m.Keys - {k};
    assert |m[k := v]| == |m[k := v].Keys| && |m| == |m.Keys| && |m - {k}| == |(m - {k}).Keys|;
  }

  // Publishing shows the row, to this id alone.
  lemma ShowLogical(extToInt: map<nat, nat>, vectors: seq<Vec>, recs: seq<W.Record>, e: nat, iid: nat)
    requires iid < |vectors| && iid < |recs|
    ensures LogicalOf(extToInt[e := iid], vectors, recs)
      == LogicalOf(extToInt, vectors, recs)[e := D.Row(vectors[iid], recs[iid])]
  {
  }

  lemma DropLogical(extToInt: map<nat, nat>, vectors: seq<Vec>, recs: seq<W.Record>, e: nat)
    requires |vectors| == |recs| && forall d :: d in extToInt ==> extToInt[d] < |vectors|
    ensures LogicalOf(extToInt - {e}, vectors, recs) == LogicalOf(extToInt, vectors, recs) - {e}
    ensures e in LogicalOf(extToInt, vectors, recs) <==> e in extToInt
    ensures e !in extToInt ==> LogicalOf(extToInt, vectors, recs) - {e} == LogicalOf(extToInt, vectors, recs)
  {
  }

  // A pending row hides from what callers see.
  lemma AppendLogical(extToInt: map<nat, nat>, vectors: seq<Vec>, recs: seq<W.Record>, vec: Vec, rec: W.Record)
    requires |vectors| == |recs| && forall e :: e in extToInt ==> extToInt[e] < |vectors|
    ensures LogicalOf(extToInt, vectors + [vec], recs + [rec]) == LogicalOf(extToInt, vectors, recs)
  {
  }

  lemma TableRows(pending: map<nat, Ticket>, extToInt: map<nat, nat>, intToExt: seq<nat>, deleted: seq<bool>)
    requires TableOK(pending, extToInt, intToExt, deleted)
    ensures |deleted| == |intToExt| && forall e :: e in extToInt ==>
      extToInt[e] < |intToExt| && intToExt[extToInt[e]] == e
  {
  }

  lemma NotPending(pending: map<nat, Ticket>, extToInt: map<nat, nat>, intToExt: seq<nat>, deleted: seq<bool>)
    requires TableOK(pending, extToInt, intToExt, deleted)
    ensures |intToExt| !in pending
  {
  }

  lemma LogicalAt(extToInt: map<nat, nat>, vectors: seq<Vec>, recs: seq<W.Record>, e: nat)
    requires |vectors| == |recs| && forall d :: d in extToInt ==> extToInt[d] < |vectors|
    ensures e in LogicalOf(extToInt, vectors, recs) <==> e in extToInt
    ensures e in extToInt ==>
      LogicalOf(extToInt, vectors, recs)[e] == D.Row(vectors[extToInt[e]], recs[extToInt[e]])
  {
  }

  lemma BoundedMore(intToExt: seq<nat>, next: nat, ext: nat)
    requires Bounded(intToExt, next)
    ensures Bounded(intToExt + [ext], if ext >= next then ext + 1 else next)
  {
  }

  lemma FlagsMore(live: seq<bool>)
    ensures Flags(live + [false]) == Flags(live) + [true] && |Flags(live)| == |live|
  {
  }

  lemma AppendBounded(intToExt: seq<nat>, next: nat, was: nat)
    requires Bounded(intToExt, next) && was < |intToExt|
    ensures Bounded(intToExt + [intToExt[was]], next)
  {
  }

  // A live row belongs to one id, and is not pending.
  lemma OnlyOne(pending: map<nat, Ticket>, extToInt: map<nat, nat>, intToExt: seq<nat>, deleted: seq<bool>,
                vectors: seq<Vec>, recs: seq<W.Record>, e: nat, rec: W.Record)
    requires TableOK(pending, extToInt, intToExt, deleted) && e in extToInt && |vectors| == |recs| == |intToExt|
    requires Held(pending, vectors, recs)
    ensures extToInt[e] < |deleted| && !deleted[extToInt[e]]
    ensures var recs' := recs[extToInt[e] := rec];
      && LogicalOf(extToInt, vectors, recs') == LogicalOf(extToInt, vectors,
        recs)[e := D.Row(vectors[extToInt[e]], rec)]
      && Held(pending, vectors, recs')
  {
    var recs' := recs[extToInt[e] := rec];
    forall d | d in extToInt && d != e ensures extToInt[d] != extToInt[e] { assert intToExt[extToInt[d]] == d; }
  }

  lemma SetPending(pending: map<nat, Ticket>, schema: seq<Spec>, columns: seq<Column>, live: seq<bool>,
                   trails: seq<Trail>, id: nat, n: nat)
    requires ColumnsOK(schema, columns, live, trails) && AllSized(columns, n) && id < n
    requires forall a :: 0 <= a < |trails| ==> |trails[a].posted| == n
    requires AllPending(pending, trails)
    ensures |columns| == |trails| && AllPending(pending, SetTrails(columns, trails, id, n))
  {
    hide FieldOK;
    forall i | i in pending ensures PostedEverywhere(SetTrails(columns, trails, id, n), i) {
      assert PostedEverywhere(trails, i);
    }
  }

  lemma NoLiveIds()
    ensures LiveIds([]) == []
  {
  }

  // The map so far: the first i ids, each to its place.
  ghost predicate Inverse(extToInt: map<nat, nat>, exts: seq<nat>, i: nat) {
    && i <= |exts|
    && (forall j :: 0 <= j < i ==> exts[j] in extToInt && extToInt[exts[j]] == j)
    && forall e :: e in extToInt ==> extToInt[e] < i && exts[extToInt[e]] == e
  }

  lemma InverseStarts(exts: seq<nat>)
    ensures Inverse(map[], exts, 0)
  {
  }

  lemma InverseGrows(extToInt: map<nat, nat>, exts: seq<nat>, i: nat)
    requires Inverse(extToInt, exts, i) && i < |exts| && Distinct(exts)
    ensures exts[i] !in extToInt && Inverse(extToInt[exts[i] := i], exts, i + 1)
  {
  }

  // The ids of the live rows: all of the map, and no others.
  ghost predicate Lists(extToInt: map<nat, nat>, ids: seq<nat>, exts: seq<nat>) {
    && |exts| == |ids| && (forall j :: 0 <= j < |ids| ==> exts[j] in extToInt && extToInt[exts[j]] == ids[j])
    && forall e :: e in extToInt ==> e in exts
  }

  lemma LiveExts(pending: map<nat, Ticket>, extToInt: map<nat, nat>, intToExt: seq<nat>, deleted: seq<bool>,
    live: seq<bool>)
    requires TableOK(pending, extToInt, intToExt, deleted) && deleted == Flags(live)
    ensures var ids := LiveIds(live);
      && (forall i :: 0 <= i < |ids| ==> ids[i] < |intToExt|)
      && Distinct(Pick(intToExt, ids)) && Lists(extToInt, ids, Pick(intToExt, ids))
  {
    LiveIdsFacts(live);
    var ids := LiveIds(live);
    forall e | e in extToInt ensures e in Pick(intToExt, ids) {
      var j :| 0 <= j < |ids| && ids[j] == extToInt[e];
      assert Pick(intToExt, ids)[j] == e;
    }
  }

  lemma RenumberBounded(intToExt: seq<nat>, next: nat, ids: seq<nat>)
    requires Bounded(intToExt, next) && forall i :: 0 <= i < |ids| ==> ids[i] < |intToExt|
    ensures Bounded(Pick(intToExt, ids), next)
  {
  }

  lemma CompactTable(was: map<nat, nat>, vectors: seq<Vec>, recs: seq<W.Record>, ids: seq<nat>, exts: seq<nat>,
                     extToInt: map<nat, nat>)
    requires |vectors| == |recs| && |exts| == |ids| && forall i :: 0 <= i < |ids| ==> ids[i] < |vectors|
    requires Inverse(extToInt, exts, |exts|) && Lists(was, ids, exts)
    ensures TableOK(map[], extToInt, exts, Flags(First(|exts|, |exts|)))
    ensures LogicalOf(extToInt, Pick(vectors, ids), Pick(recs, ids)) == LogicalOf(was, vectors, recs)
  {
    assert forall e :: e in was <==> e in extToInt;
  }

  lemma FreshSizes(k: nat, posted: seq<bool>)
    ensures forall a :: 0 <= a < |FreshTrails(k, posted)| ==> |FreshTrails(k, posted)[a].posted| == |posted|
  {
  }

  lemma NothingPending(trails: seq<Trail>, vectors: seq<Vec>, recs: seq<W.Record>)
    ensures AllPending(map[], trails) && Held(map[], vectors, recs)
  {
  }

  class VDB {
    const schema: seq<Spec>
    const meta: MetadataStore

    // The vectors in the index, by the number it gave them, and the raw copies.
    var index: seq<Vec>
    var vectors: seq<Vec>
    var extToInt: map<nat, nat>
    var intToExt: seq<nat>
    var deleted: seq<bool>
    var nextExt: nat
    var liveCount: nat
    var deletedCount: nat

    ghost var pending: map<nat, Ticket>

    ghost predicate Valid()
      reads this, meta
    {
      && meta.Valid() && meta.schema == schema
      && |intToExt| == |vectors| == meta.rows == |meta.live| && index == vectors
      && (forall a :: 0 <= a < |meta.trails| ==> |meta.trails[a].posted| == meta.rows)
      && deleted == Flags(meta.live)
      && TableOK(pending, extToInt, intToExt, deleted) && AllPending(pending, meta.trails)
      && Held(pending, vectors, meta.Contents()) && Bounded(intToExt, nextExt)
      && liveCount == |extToInt| == |LiveIds(meta.live)| && liveCount + deletedCount == |intToExt|
    }

    // What a caller sees: for each id its vector and its record.
    ghost function Logical(): D.Rows
      requires Valid()
      reads this, meta
    {
      LogicalOf(extToInt, vectors, meta.Contents())
    }

    constructor (schema: seq<Spec>)
      requires forall a :: 0 <= a < |schema| ==> Indexable(schema[a])
      ensures Valid() && fresh(meta) && this.schema == schema && Logical() == map[] && pending == map[]
    {
      this.schema := schema;
      meta := new MetadataStore(schema);
      index, vectors, extToInt, intToExt, deleted := [], [], map[], [], [];
      nextExt, liveCount, deletedCount := 0, 0, 0;
      pending := map[];
    }

    // An id that no row has, or had since the rows were last compacted.
    method ReserveId() returns (ext: nat)
      requires Valid()
      modifies this`nextExt
      ensures Valid() && Logical() == old(Logical()) && ext == old(nextExt) && nextExt == ext + 1
      ensures ext !in Logical() && forall i :: 0 <= i < |intToExt| ==> intToExt[i] < ext
    {
      ext := nextExt;
      nextExt := nextExt + 1;
    }

    // ----- insert -----

    // Phase 1 of `insert_reserved`: a pending row, which nothing sees.
    method BeginInsert(ext: nat, vec: Vec, rec: W.Record) returns (ok: bool, iid: nat)
      requires Valid() && TruthValues(rec) && ext !in extToInt && Free(pending, ext)
      modifies this, meta
      ensures Valid() && Logical() == old(Logical()) && (ok <==> Conforms(schema, rec))
      ensures !ok ==> pending == old(pending) && intToExt == old(intToExt)
      ensures ok ==> iid == old(|intToExt|)
      ensures ok ==> pending == old(pending)[iid := Inserting(ext, D.Row(vec, Normal(schema, rec)))]
      ensures ok ==> nextExt > ext
    {
      hide ColumnsOK, AllSized, TableOK, AllPending, Held, LiveIds, LogicalOf, Conforms, TruthValues, Records, Free,
        Bounded, Normal, Flags;
      ghost var t := Inserting(ext, D.Row(vec, Normal(schema, rec)));
      BoundedMore(intToExt, nextExt, ext);
      TableRows(pending, extToInt, intToExt, deleted);
      AppendTable(pending, extToInt, intToExt, deleted, t);
      AppendPending(pending, meta.trails, vectors, meta.Contents(), t);
      AppendLogical(extToInt, vectors, meta.Contents(), vec, t.row.meta);
      LiveIdsSnoc(meta.live, false);
      FlagsMore(meta.live);
      ok := meta.AppendRow(rec);
      if !ok { return false, 0; }
      iid := |index|;
      index := index + [vec];
      intToExt := intToExt + [ext];
      deleted := deleted + [true];
      deletedCount := deletedCount + 1;
      vectors := vectors + [vec];
      if ext >= nextExt { nextExt := ext + 1; }
      pending := pending[iid := t];
    }

    // Phase 3: the row becomes visible, with what it was given in phase 1.
    method FinishInsert(ext: nat, iid: nat)
      requires Valid() && iid in pending && pending[iid].Inserting? && pending[iid].ext == ext
      modifies this, meta
      ensures Valid() && pending == old(pending) - {iid}
      ensures Logical() == old(Logical())[ext := old(pending[iid].row)]
      ensures intToExt == old(intToExt) && nextExt == old(nextExt)
    {
      hide ColumnsOK, AllSized, TableOK, AllPending, Held, LiveIds, LogicalOf, Records, Bounded, PostedEverywhere,
        Flags;
      TableRows(pending, extToInt, intToExt, deleted);
      PublishInsert(pending, extToInt, intToExt, deleted, iid);
      FewerPending(pending, meta.trails, vectors, meta.Contents(), iid);
      FlagsFlip(meta.live, iid, true);
      LiveIdsFlip(meta.live, iid);
      LiveIdsBound(meta.live[iid := true]);
      assert meta.live[iid := false] == meta.live;
      MapGrows(extToInt, ext, iid);
      ShowLogical(extToInt, vectors, meta.Contents(), ext, iid);
      deleted := deleted[iid := false];
      deletedCount := deletedCount - 1;
      meta.MarkLive(iid);
      extToInt := extToInt[ext := iid];
      liveCount := liveCount + 1;
      pending := pending - {iid};
    }

    // `insert_reserved`, with nothing in between.
    method InsertReserved(ext: nat, vec: Vec, rec: W.Record) returns (ok: bool)
      requires Valid() && TruthValues(rec) && ext !in extToInt && Free(pending, ext)
      modifies this, meta
      ensures Valid() && pending == old(pending) && (ok <==> Conforms(schema, rec))
      ensures Logical() == if ok then old(Logical())[ext := D.Row(vec, Normal(schema, rec))] else old(Logical())
      ensures ok ==> nextExt > ext
    {
      hide ColumnsOK, AllSized, TableOK, AllPending, Held, LiveIds, LogicalOf, Conforms, TruthValues, Records, Free,
        Bounded;
      TableRows(pending, extToInt, intToExt, deleted);
      NotPending(pending, extToInt, intToExt, deleted);
      var good, iid := BeginInsert(ext, vec, rec);
      ok := good;
      if ok {
        FinishInsert(ext, iid);
        assert pending == old(pending);
      }
    }

    // ----- update -----

    // Phase 1 of `update_`. Without a record, the new row gets a copy of the old one.
    method BeginUpdate(ext: nat, vec: Vec, rec: Option<W.Record>) returns (r: Begun)
      requires Valid() && (rec.Some? ==> TruthValues(rec.value)) && Free(pending, ext)
      modifies this, meta
      ensures Valid() && Logical() == old(Logical()) && nextExt == old(nextExt)
      ensures r.Invalid? <==> rec.Some? && !Conforms(schema, rec.value)
      ensures r.Unknown? <==> !r.Invalid? && ext !in old(Logical())
      ensures !r.Begun? ==> pending == old(pending) && intToExt == old(intToExt)
      ensures r.Begun? ==> r.iid == old(|intToExt|) && ext in old(Logical())
      ensures r.Begun? ==>
        pending == old(pending)[r.iid := Updating(ext,
          D.Row(vec, if rec.Some? then Normal(schema, rec.value) else old(Logical()[ext].meta)), r.was)]
    {
      hide ColumnsOK, AllSized, TableOK, AllPending, Held, LiveIds, LogicalOf, Conforms, TruthValues, Records, Free,
        Bounded;
      if rec.Some? {
        var good := meta.Validate(rec.value);
        if !good { return Invalid; }
      }
      TableRows(pending, extToInt, intToExt, deleted);
      LogicalAt(extToInt, vectors, meta.Contents(), ext);
      if ext !in extToInt { return Unknown; }
      var was := extToInt[ext];
      var iid := AppendReplacement(ext, vec, rec, was);
      r := Begun(iid, was);
    }

    // The pending row of an update, once the old one is found.
    method AppendReplacement(ext: nat, vec: Vec, rec: Option<W.Record>, was: nat) returns (iid: nat)
      requires Valid() && (rec.Some? ==> Conforms(schema, rec.value) && TruthValues(rec.value)) && Free(pending, ext)
      requires ext in extToInt && extToInt[ext] == was
      modifies this, meta
      ensures Valid() && Logical() == old(Logical()) && nextExt == old(nextExt) && iid == old(|intToExt|)
      ensures ext in old(Logical()) && pending == old(pending)[iid := Updating(ext,
          D.Row(vec, if rec.Some? then Normal(schema, rec.value) else old(Logical()[ext].meta)), was)]
    {
      hide ColumnsOK, AllSized, TableOK, AllPending, Held, LiveIds, LogicalOf, Conforms, TruthValues, Records, Free,
        Bounded, Normal, Flags;
      TableRows(pending, extToInt, intToExt, deleted);
      LogicalAt(extToInt, vectors, meta.Contents(), ext);
      iid := |index|;
      ghost var t := Updating(ext, D.Row(vec, if rec.Some? then Normal(schema, rec.value) else meta.Contents()[was]),
        was);
      AppendTable(pending, extToInt, intToExt, deleted, t);
      AppendPending(pending, meta.trails, vectors, meta.Contents(), t);
      AppendLogical(extToInt, vectors, meta.Contents(), vec, t.row.meta);
      AppendBounded(intToExt, nextExt, was);
      LiveIdsSnoc(meta.live, false);
      FlagsMore(meta.live);
      index := index + [vec];
      intToExt := intToExt + [ext];
      deleted := deleted + [true];
      deletedCount := deletedCount + 1;
      vectors := vectors + [vec];
      if rec.Some? {
        var appended := meta.AppendRow(rec.value);
      } else {
        meta.AppendRowCopy(was);
      }
      pending := pending[iid := t];
    }

    // Phase 3: the new row is swapped in for the old one.
    method FinishUpdate(ext: nat, iid: nat, was: nat)
      requires Valid() && iid in pending && pending[iid].Updating? && pending[iid].ext == ext && pending[iid].was == was
      modifies this, meta
      ensures Valid() && pending == old(pending) - {iid} && nextExt == old(nextExt)
      ensures Logical() == old(Logical())[ext := old(pending[iid].row)]
    {
      hide ColumnsOK, AllSized, TableOK, AllPending, Held, LiveIds, LogicalOf, Records, Bounded, PostedEverywhere,
        Flags;
      TableRows(pending, extToInt, intToExt, deleted);
      PublishUpdate(pending, extToInt, intToExt, deleted, iid);
      FewerPending(pending, meta.trails, vectors, meta.Contents(), iid);
      ghost var live1 := meta.live[iid := true];
      FlagsFlip(meta.live, iid, true);
      FlagsFlip(live1, was, false);
      LiveIdsFlip(meta.live, iid);
      LiveIdsFlip(live1, was);
      LiveIdsBound(live1);
      assert meta.live[iid := false] == meta.live && live1[was := true] == live1;
      MapGrows(extToInt, ext, iid);
      ShowLogical(extToInt, vectors, meta.Contents(), ext, iid);
      deleted := deleted[iid := false];
      deletedCount := deletedCount - 1;
      meta.MarkLive(iid);
      deleted := deleted[was := true];
      deletedCount := deletedCount + 1;
      meta.MarkDead(was);
      extToInt := extToInt[ext := iid];
      pending := pending - {iid};
    }

    method Update(ext: nat, vec: Vec, rec: Option<W.Record>) returns (r: Begun)
      requires Valid() && (rec.Some? ==> TruthValues(rec.value)) && Free(pending, ext)
      modifies this, meta
      ensures Valid() && pending == old(pending) && nextExt == old(nextExt)
      ensures r.Invalid? <==> rec.Some? && !Conforms(schema, rec.value)
      ensures r.Begun? <==> !r.Invalid? && ext in old(Logical())
      ensures Logical() ==
        if !r.Begun? then old(Logical())
        else old(Logical())[ext := D.Row(vec,
          if rec.Some? then Normal(schema, rec.value) else old(Logical()[ext].meta))]
    {
      hide ColumnsOK, AllSized, TableOK, AllPending, Held, LiveIds, LogicalOf, Conforms, TruthValues, Records, Free,
        Bounded;
      TableRows(pending, extToInt, intToExt, deleted);
      NotPending(pending, extToInt, intToExt, deleted);
      r := BeginUpdate(ext, vec, rec);
      if r.Begun? {
        FinishUpdate(ext, r.iid, r.was);
        assert pending == old(pending);
      }
    }

    // ----- remove, set_metadata and reading -----

    method Remove(ext: nat) returns (found: bool)
      requires Valid() && Free(pending, ext)
      modifies this, meta
      ensures Valid() && pending == old(pending) && nextExt == old(nextExt)
      ensures (found <==> ext in old(Logical())) && Logical() == old(Logical()) - {ext}
    {
      hide ColumnsOK, AllSized, TableOK, AllPending, Held, LiveIds, LogicalOf, Records, Bounded, PostedEverywhere,
        Free, Flags, MetadataStore.Valid, MetadataStore.Contents;
      TableRows(pending, extToInt, intToExt, deleted);
      DropLogical(extToInt, vectors, meta.Contents(), ext);
      if ext !in extToInt { return false; }
      var iid := extToInt[ext];
      RemoveRow(pending, extToInt, intToExt, deleted, ext);
      FlagsFlip(meta.live, iid, false);
      LiveIdsFlip(meta.live, iid);
      assert meta.live[iid := true] == meta.live;
      MapGrows(extToInt, ext, iid);
      deleted := deleted[iid := true];
      meta.MarkDead(iid);
      extToInt := extToInt - {ext};
      liveCount := liveCount - 1;
      deletedCount := deletedCount + 1;
      found := true;
    }

    method SetMetadata(ext: nat, rec: W.Record) returns (r: Begun)
      requires Valid() && TruthValues(rec) && Free(pending, ext)
      modifies this, meta
      ensures Valid() && pending == old(pending) && nextExt == old(nextExt)
      ensures r.Invalid? <==> !Conforms(schema, rec)
      ensures r.Begun? <==> !r.Invalid? && ext in old(Logical())
      ensures Logical() ==
        if !r.Begun? then old(Logical()) else old(Logical())[ext := D.Row(old(Logical()[ext].vec), Normal(schema, rec))]
    {
      hide ColumnsOK, AllSized, TableOK, AllPending, Held, LiveIds, LogicalOf, Conforms, TruthValues, Records, Free,
        Bounded;
      TableRows(pending, extToInt, intToExt, deleted);
      LogicalAt(extToInt, vectors, meta.Contents(), ext);
      var good := meta.Validate(rec);
      if !good { return Invalid; }
      if ext !in extToInt { return Unknown; }
      var iid := extToInt[ext];
      OnlyOne(pending, extToInt, intToExt, deleted, vectors, meta.Contents(), ext, Normal(schema, rec));
      SetPending(pending, schema, meta.columns, meta.live, meta.trails, iid, meta.rows);
      var written := meta.SetRow(iid, rec);
      r := Begun(iid, iid);
    }

    method GetMetadata(ext: nat) returns (r: Option<W.Record>)
      requires Valid()
      ensures r == if ext in Logical() then Some(Logical()[ext].meta) else None
    {
      hide ColumnsOK, AllSized, TableOK, AllPending, Held, LiveIds, LogicalOf, Records;
      TableRows(pending, extToInt, intToExt, deleted);
      LogicalAt(extToInt, vectors, meta.Contents(), ext);
      if ext !in extToInt { return None; }
      var rec := meta.GetRow(extToInt[ext]);
      r := Some(rec);
    }

    // ----- compact -----

    // The live rows in their order, as three lists.
    method CollectLive() returns (vecs: seq<Vec>, exts: seq<nat>, ids: seq<nat>)
      requires Valid()
      ensures ids == LiveIds(meta.live) && (forall i :: 0 <= i < |ids| ==> ids[i] < |intToExt|)
      ensures vecs == Pick(vectors, ids) && exts == Pick(intToExt, ids)
    {
      hide ColumnsOK, AllSized, TableOK, AllPending, Held, LogicalOf, Records, Bounded, LiveIds;
      vecs, exts, ids := [], [], [];
      LiveIdsFacts(meta.live);
      NoLiveIds();
      assert meta.live[..0] == [];
      for i := 0 to |intToExt|
        invariant ids == LiveIds(meta.live[..i]) && |vecs| == |exts| == |ids|
        invariant forall j :: 0 <= j < |ids| ==> ids[j] < i && vecs[j] == vectors[ids[j]] && exts[j] == intToExt[ids[j]]
      {
        assert meta.live[..i + 1] == meta.live[..i] + [meta.live[i]];
        LiveIdsSnoc(meta.live[..i], meta.live[i]);
        if !deleted[i] {
          vecs, exts, ids := vecs + [vectors[i]], exts + [intToExt[i]], ids + [i];
        }
      }
      assert meta.live[..|intToExt|] == meta.live;
    }

    // Single-phase add of a live row.
    method AppendLive(ext: nat, vec: Vec) returns (iid: nat)
      requires |index| == |intToExt|
      modifies this`index, this`intToExt, this`deleted, this`vectors
      ensures index == old(index) + [vec] && iid == |old(index)|
      ensures intToExt == old(intToExt) + [ext] && deleted == old(deleted) + [false] && vectors == old(vectors) + [vec]
    {
      iid := |index|;
      index := index + [vec];
      intToExt := intToExt + [ext];
      deleted := deleted + [false];
      vectors := vectors + [vec];
    }

    // Fresh maps and arrays, filled with the live rows.
    method AddAgain(vecs: seq<Vec>, exts: seq<nat>)
      requires |vecs| == |exts| && Distinct(exts)
      modifies this`index, this`intToExt, this`deleted, this`vectors, this`extToInt, this`deletedCount
      ensures intToExt == exts && index == vectors == vecs && deleted == Flags(First(|exts|, |exts|)) &&
        deletedCount == 0
      ensures Inverse(extToInt, exts, |exts|) && |extToInt| == |exts|
    {
      hide Inverse;
      index, extToInt, intToExt, deleted, vectors := [], map[], [], [], [];
      deletedCount := 0;
      InverseStarts(exts);
      for i := 0 to |vecs|
        modifies this`index, this`intToExt, this`deleted, this`vectors, this`extToInt
        invariant intToExt == exts[..i] && index == vectors == vecs[..i] && deleted == Flags(First(i, i))
        invariant Inverse(extToInt, exts, i) && |extToInt| == i
      {
        MapGrows(extToInt, exts[i], i);
        InverseGrows(extToInt, exts, i);
        var iid := AppendLive(exts[i], vecs[i]);
        extToInt := extToInt[exts[i] := iid];
        assert Flags(First(i + 1, i + 1)) == Flags(First(i, i)) + [false];
      }
      assert exts[..|exts|] == exts && vecs[..|vecs|] == vecs;
    }

    // The metadata rows are renumbered to go with the collected lists.
    method Renumber() returns (vecs: seq<Vec>, exts: seq<nat>)
      requires Valid()
      modifies meta
      ensures meta.Valid() && meta.rows == |exts| == |vecs| == |LiveIds(meta.live)| == liveCount
      ensures meta.live == First(|exts|, |exts|) && meta.trails == FreshTrails(|schema|, meta.live)
      ensures Distinct(exts) && Bounded(exts, nextExt)
      ensures forall m :: Inverse(m, exts, |exts|) ==>
        TableOK(map[], m, exts, Flags(meta.live)) && LogicalOf(m, vecs, meta.Contents()) == old(Logical())
    {
      hide ColumnsOK, AllSized, TableOK, AllPending, Held, LogicalOf, Records, Bounded, LiveIds, Inverse, Distinct,
        Lists, FreshTrails;
      var ids;
      vecs, exts, ids := CollectLive();
      ghost var recs := meta.Contents();
      LiveExts(pending, extToInt, intToExt, deleted, meta.live);
      RenumberBounded(intToExt, nextExt, ids);
      LiveIdsAll(|ids|);
      meta.Permute(ids);
      forall m | Inverse(m, exts, |exts|)
        ensures TableOK(map[], m, exts, Flags(meta.live)) && LogicalOf(m, vecs, meta.Contents()) == old(Logical())
      {
        CompactTable(extToInt, vectors, recs, ids, exts, m);
      }
    }

    // Dead rows are dropped and the others renumbered; what callers see stays the same,
    // and the derived state is as good as new.
    method Compact()
      requires Valid() && pending == map[]
      modifies this, meta
      ensures Valid() && pending == map[] && Logical() == old(Logical()) && nextExt == old(nextExt)
      ensures deletedCount == 0 && |intToExt| == liveCount == old(liveCount)
      ensures meta.live == First(liveCount, liveCount) && meta.trails == FreshTrails(|schema|, meta.live)
    {
      hide ColumnsOK, AllSized, TableOK, AllPending, Held, LogicalOf, Records, Bounded, LiveIds, Inverse, Distinct,
        FreshTrails, Flags, First;
      var vecs, exts := Renumber();
      AddAgain(vecs, exts);
      NothingPending(meta.trails, vectors, meta.Contents());
      FreshSizes(|schema|, meta.live);
    }
  }
}
