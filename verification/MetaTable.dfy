/** All columns of a metadata store together: one per declared attribute, and one payload per row, with
    what each operation does to them and what it keeps. */
module MetaTable {
  import opened Basics
  import opened TreeKeys
  import opened SortedPairs
  import opened SortableBits
  import W = WalRecords
  import opened MetaColumn
  import opened MetaRows
  import opened MetaResolve

  // One declared attribute.
  datatype Spec = Spec(kind: Kind, indexed: bool)

  // `validate`: no attributes at all, or one of the declared kind, or null, for each.
  predicate Conforms(schema: seq<Spec>, rec: W.Record) {
    rec.attrs == [] ||
    (|rec.attrs| == |schema| && forall a :: 0 <= a < |schema| ==> KindFits(schema[a].kind, rec.attrs[a]))
  }

  predicate KindFits(kind: Kind, v: W.AttrValue) {
    match v
    case Null => true
    case Int64(_) => kind.KInt?
    case Float64(_) => kind.KFloat?
    case Bool(_) => kind.KBool?
    case Tag(_) => kind.KTag?
    case Text(_) => kind.KText?
  }

  // What the source takes for granted of truth values, and nothing in it checks.
  predicate TruthValues(rec: W.Record) {
    forall a :: 0 <= a < |rec.attrs| && rec.attrs[a].Bool? ==> TruthValue(rec.attrs[a].raw)
  }

  // The value of attribute a; an empty list stands for nulls.
  function AttrOf(rec: W.Record, a: nat): W.AttrValue {
    if a < |rec.attrs| then rec.attrs[a] else W.Null
  }

  function Normal(schema: seq<Spec>, rec: W.Record): W.Record {
    W.Record(seq(|schema|, a requires 0 <= a < |schema| => AttrOf(rec, a)), rec.payload)
  }

  /** A record that conforms reads back as it was given: an attribute that was given keeps its
      value, one that was not is null. */
  lemma ConformingIsKept(schema: seq<Spec>, rec: W.Record)
    requires Conforms(schema, rec)
    ensures var r := Normal(schema, rec);
      && r.payload == rec.payload && |r.attrs| == |schema|
      && if rec.attrs == [] then forall a :: 0 <= a < |schema| ==> r.attrs[a] == W.Null else r == rec
  {
    var r := Normal(schema, rec);
    if rec.attrs != [] {
      assert |rec.attrs| == |schema|;
      assert r.attrs == rec.attrs;
    }
  }

  lemma ConformsAccepts(schema: seq<Spec>, rec: W.Record, a: nat)
    requires Conforms(schema, rec) && TruthValues(rec) && a < |schema|
    ensures Accepts(schema[a].kind, AttrOf(rec, a))
  {
  }

  function EmptyColumn(s: Spec): Column {
    Column(s.kind, [], [], [], [], [], [], if s.kind.KBool? then [0, 0] else [],
           if s.kind.KBool? then [[], []] else [], 0, 0, if s.indexed then Some([]) else None)
  }

  lemma EmptyColumnOK(s: Spec)
    requires s.indexed ==> s.kind.KInt? || s.kind.KFloat?
    ensures ColumnOK(EmptyColumn(s), [], Trail([], multiset{}))
  {
  }

  datatype Predicate =
    | Eq(attr: nat, value: W.AttrValue)
    | Range(attr: nat, lo: W.AttrValue, hi: W.AttrValue)

  /** What a predicate resolves to: an exception, nothing yet (a range on a column without
      an index), or the rows that match. */
  datatype Resolved = Mismatch | Unresolved | Allow(ids: seq<nat>)

  // Row id holds a value that the predicate asks for.
  predicate Holds(c: Column, p: Predicate, id: nat)
    requires Sized(c, |c.present|) && id < |c.present|
  {
    c.present[id] &&
    match p
    case Eq(_, v) => if v.Bool? then c.kind.KBool? && (c.data[id] != 0 <==> v.raw != 0) else ValueAt(c, id) == v
    case Range(_, lo, hi) =>
      if c.kind.KInt? && lo.Int64? && hi.Int64? && c.data[id] < W.LONG_LIMIT then
        Signed(lo.raw) <= Signed(c.data[id]) <= Signed(hi.raw)
      else if c.kind.KFloat? && lo.Float64? && hi.Float64? && c.data[id] < W.LONG_LIMIT then
        TotalOrder(lo.raw, c.data[id]) && TotalOrder(c.data[id], hi.raw)
      else false
  }

  // The predicate fits the column.
  predicate Suits(c: Column, p: Predicate) {
    match p
    case Eq(_, v) => (c.kind.KTag? && v.Tag?) || (c.kind.KBool? && v.Bool?)
    case Range(_, lo, hi) => (c.kind.KInt? && lo.Int64? && hi.Int64?) || (c.kind.KFloat? && lo.Float64? && hi.Float64?)
  }

  // The code that an equality asks for.
  function CodeOf(c: Column, v: W.AttrValue): nat {
    if v.Tag? then IndexOf(c.dict, v.text) else if v.Bool? && v.raw != 0 then 1 else 0
  }

  // The live rows that a predicate asks for, each once.
  ghost predicate Answers(c: Column, live: seq<bool>, p: Predicate, ids: seq<nat>)
    requires Sized(c, |live|) && |c.present| == |live|
  {
    Distinct(ids) && forall i: nat :: i in ids <==> i < |live| && live[i] && Holds(c, p, i)
  }

  // No live row had the value that an equality asks for overwritten by `set_row`.
  ghost predicate Untouched(c: Column, live: seq<bool>, tr: Trail, p: Predicate) {
    p.Eq? ==> forall i: nat :: i < |live| && live[i] ==> tr.over[(i, CodeOf(c, p.value))] == 0
  }

  lemma CodeIsValue(c: Column, live: seq<bool>, tr: Trail, p: Predicate, i: nat)
    requires ColumnOK(c, live, tr) && p.Eq? && Suits(c, p) && i < |live|
    ensures Sized(c, |live|) && |c.present| == |live|
    ensures CodeOf(c, p.value) < |c.postings| ==> (CodeOf(c, p.value) in Codes(c, i) <==> Holds(c, p, i))
    ensures CodeOf(c, p.value) >= |c.postings| ==> !Holds(c, p, i)
  {
    hide CountsOK, IndexOK, PostingsOK;
    assert RowOK(c, i);
  }

  /** When a conforming truth value indexes the two-element lists of its column inside their
      bounds, and when it indexes them where an equality on its reading looks. */
  lemma TruthIff(c: Column, live: seq<bool>, tr: Trail, raw: W.Long)
    requires ColumnOK(c, live, tr) && c.kind.KBool?
    ensures |c.count| == |c.postings| == 2 && Conforms([Spec(KBool, false)], W.Record([W.Bool(raw)], []))
    ensures CodeAt(KBool, raw) < |c.postings| <==> raw % W.WORD_LIMIT == 0 || raw % W.WORD_LIMIT == 1
    ensures CodeAt(KBool, raw) < |c.postings| && CodeAt(KBool, raw) == CodeOf(c, W.Bool(raw)) <==> TruthValue(raw)
  {
    hide CountsOK, IndexOK, PostingsOK, RowOK;
  }

  // Two records that conform. One indexes the lists beyond their end; the other reads as
  // true and counts as false.
  lemma OddTruths()
    ensures var schema, two, wide := [Spec(KBool, false)], W.Record([W.Bool(2)], []),
                                     W.Record([W.Bool(W.WORD_LIMIT)], []);
      && Conforms(schema, two) && CodeAt(KBool, two.attrs[0].raw) >= |EmptyColumn(schema[0]).postings|
      && Conforms(schema, wide) && CodeAt(KBool, wide.attrs[0].raw) == 0
      && CodeOf(EmptyColumn(schema[0]), wide.attrs[0]) == 1
  {
  }

  // What `resolve` computes for an equality: complete whatever happened, and exact if and
  // only if no live row had this value overwritten since the postings were last built.
  lemma EqualityAnswers(c: Column, live: seq<bool>, tr: Trail, p: Predicate)
    requires ColumnOK(c, live, tr) && AllPosted(live, tr) && p.Eq? && Suits(c, p)
    ensures Sized(c, |live|) && |c.present| == |live|
    ensures var k := CodeOf(c, p.value);
      var ids := if k < |c.postings| then Filtered(c.postings[k], live) else [];
      && (forall i: nat :: i < |live| && live[i] && Holds(c, p, i) ==> i in ids)
      && (Answers(c, live, p, ids) <==> Untouched(c, live, tr, p))
  {
    hide ColumnOK, Codes, Filtered, CodeOf, Holds, Suits;
    ColumnFacts(c, live, tr);
    var k := CodeOf(c, p.value);
    forall i: nat | i < |live|
      ensures k < |c.postings| ==> (k in Codes(c, i) <==> Holds(c, p, i))
      ensures k >= |c.postings| ==> !Holds(c, p, i) && tr.over[(i, k)] == 0
    {
      CodeIsValue(c, live, tr, p, i);
      if tr.over[(i, k)] > 0 { OverWithin(c, live, tr, i, k); }
    }
    if k < |c.postings| { EqualityExact(c, live, tr, k); }
  }

  // And for a range on an indexed column: always exact.
  lemma RangeAnswers(c: Column, live: seq<bool>, tr: Trail, p: Predicate)
    requires ColumnOK(c, live, tr) && p.Range? && Suits(c, p) && c.index.Some?
    ensures Sized(c, |live|) && |c.present| == |live|
    ensures Answers(c, live, p, Ids(Select(c.index.value, KeyOf(c.kind, p.lo.raw), KeyOf(c.kind, p.hi.raw))))
  {
    hide ColumnOK, Select, Signed, TotalOrder;
    ColumnFacts(c, live, tr);
    RangeByValue(c, live, tr, p.lo.raw, p.hi.raw);
  }

  // ----- the whole store -----

  predicate AllSized(columns: seq<Column>, n: nat) {
    forall a :: 0 <= a < |columns| ==> Sized(columns[a], n)
  }

  // What row id holds, as `get_row` gives it.
  function RecordOf(columns: seq<Column>, payload: seq<Str>, id: nat): W.Record
    requires AllSized(columns, |payload|) && id < |payload|
  {
    W.Record(seq(|columns|, a requires 0 <= a < |columns| => ValueAt(columns[a], id)), payload[id])
  }

  function Records(columns: seq<Column>, payload: seq<Str>): seq<W.Record>
    requires AllSized(columns, |payload|)
  {
    seq(|payload|, id requires 0 <= id < |payload| => RecordOf(columns, payload, id))
  }

  // Every column is kept with respect to the same live rows.
  ghost predicate ColumnsOK(schema: seq<Spec>, columns: seq<Column>, live: seq<bool>, trails: seq<Trail>) {
    && |columns| == |trails| == |schema|
    && forall a :: 0 <= a < |columns| ==> FieldOK(schema[a], columns[a], live, trails[a])
  }

  ghost predicate FieldOK(s: Spec, c: Column, live: seq<bool>, tr: Trail) {
    && c.kind == s.kind && (c.index.Some? <==> s.indexed)
    && ColumnOK(c, live, tr) && AllPosted(live, tr)
  }

  lemma ColumnsSized(schema: seq<Spec>, columns: seq<Column>, live: seq<bool>, trails: seq<Trail>)
    requires ColumnsOK(schema, columns, live, trails)
    ensures AllSized(columns, |live|) && forall a :: 0 <= a < |trails| ==> |trails[a].posted| == |live|
  {
    forall a | 0 <= a < |columns| ensures Sized(columns[a], |live|) && |trails[a].posted| == |live| {
      assert FieldOK(schema[a], columns[a], live, trails[a]);
    }
  }

  // A row that is posted everywhere may become live.
  ghost predicate PostedEverywhere(trails: seq<Trail>, id: nat) {
    forall a :: 0 <= a < |trails| ==> id < |trails[a].posted| && trails[a].posted[id]
  }

  // ----- the operations on all columns -----

  function AppendColumns(columns: seq<Column>, rec: W.Record, n: nat): seq<Column>
    requires AllSized(columns, n)
  {
    seq(|columns|, a requires 0 <= a < |columns| => AppendCell(columns[a], AttrOf(rec, a)))
  }

  function AppendTrails(trails: seq<Trail>): seq<Trail> {
    seq(|trails|, a requires 0 <= a < |trails| => Trail(trails[a].posted + [true], trails[a].over))
  }

  lemma AppendColumnsOK(schema: seq<Spec>, columns: seq<Column>, payload: seq<Str>, live: seq<bool>,
    trails: seq<Trail>, rec: W.Record)
    requires ColumnsOK(schema, columns, live, trails) && AllSized(columns, |live|) && |payload| == |live|
    requires Conforms(schema, rec) && TruthValues(rec)
    ensures var cs := AppendColumns(columns, rec, |live|);
      && ColumnsOK(schema, cs, live + [false], AppendTrails(trails)) && AllSized(cs, |live| + 1)
      && Records(cs, payload + [rec.payload]) == Records(columns, payload) + [Normal(schema, rec)]
      && PostedEverywhere(AppendTrails(trails), |live|)
  {
    hide ColumnOK, AppendCell, ValueAt, Conforms, TruthValues;
    var cs := AppendColumns(columns, rec, |live|);
    forall a | 0 <= a < |columns|
      ensures FieldOK(schema[a], cs[a], live + [false], AppendTrails(trails)[a]) && Sized(cs[a], |live| + 1)
      ensures ValueAt(cs[a], |live|) == AttrOf(rec, a)
      ensures forall id :: 0 <= id < |live| ==> ValueAt(cs[a], id) == ValueAt(columns[a], id)
    {
      assert FieldOK(schema[a], columns[a], live, trails[a]);
      ConformsAccepts(schema, rec, a);
      AppendKeeps(columns[a], AttrOf(rec, a), live, trails[a]);
      AppendValues(columns[a], AttrOf(rec, a), live, trails[a]);
    }
    AppendedRecords(columns, cs, payload, schema, rec);
  }

  lemma AppendedRecords(columns: seq<Column>, cs: seq<Column>, payload: seq<Str>, schema: seq<Spec>, rec: W.Record)
    requires AllSized(columns, |payload|) && AllSized(cs, |payload| + 1) && |cs| == |columns| == |schema|
    requires forall a :: 0 <= a < |cs| ==>
      && ValueAt(cs[a], |payload|) == AttrOf(rec, a)
      && forall id :: 0 <= id < |payload| ==> ValueAt(cs[a], id) == ValueAt(columns[a], id)
    ensures Records(cs, payload + [rec.payload]) == Records(columns, payload) + [Normal(schema, rec)]
  {
    hide ValueAt, AttrOf;
    var x, y := Records(cs, payload + [rec.payload]), Records(columns, payload) + [Normal(schema, rec)];
    forall id | 0 <= id < |x| ensures x[id] == y[id] {
      assert x[id].attrs == y[id].attrs;
    }
  }

  function CopyColumns(columns: seq<Column>, src: nat, n: nat): seq<Column>
    requires AllSized(columns, n) && src < n
  {
    seq(|columns|, a requires 0 <= a < |columns| => CopyCell(columns[a], src))
  }

  lemma CopyColumnsOK(schema: seq<Spec>, columns: seq<Column>, payload: seq<Str>, live: seq<bool>, trails: seq<Trail>,
    src: nat)
    requires ColumnsOK(schema, columns, live, trails) && AllSized(columns, |live|) && |payload| == |live| &&
      src < |live|
    ensures var cs := CopyColumns(columns, src, |live|);
      && ColumnsOK(schema, cs, live + [false], AppendTrails(trails)) && AllSized(cs, |live| + 1)
      && Records(cs, payload + [payload[src]]) == Records(columns, payload) + [RecordOf(columns, payload, src)]
      && PostedEverywhere(AppendTrails(trails), |live|)
  {
    hide ColumnOK, CopyCell, ValueAt;
    var cs := CopyColumns(columns, src, |live|);
    forall a | 0 <= a < |columns|
      ensures FieldOK(schema[a], cs[a], live + [false], AppendTrails(trails)[a]) && Sized(cs[a], |live| + 1)
      ensures ValueAt(cs[a], |live|) == ValueAt(columns[a], src)
      ensures forall id :: 0 <= id < |live| ==> ValueAt(cs[a], id) == ValueAt(columns[a], id)
    {
      assert FieldOK(schema[a], columns[a], live, trails[a]);
      CopyKeeps(columns[a], src, live, trails[a]);
      CopyValues(columns[a], src, live, trails[a]);
    }
    var x, y := Records(cs, payload + [payload[src]]), Records(columns, payload) + [RecordOf(columns, payload, src)];
    forall id | 0 <= id < |x| ensures x[id] == y[id] { assert x[id].attrs == y[id].attrs; }
  }

  function TurnColumns(columns: seq<Column>, id: nat, up: bool, n: nat): seq<Column>
    requires AllSized(columns, n) && id < n
  {
    seq(|columns|, a requires 0 <= a < |columns| => Turned(columns[a], id, up))
  }

  lemma TurnColumnsOK(schema: seq<Spec>, columns: seq<Column>, payload: seq<Str>, live: seq<bool>, trails: seq<Trail>,
    id: nat, up: bool)
    requires ColumnsOK(schema, columns, live, trails) && AllSized(columns, |live|) && |payload| == |live|
    requires id < |live| && live[id] != up && (up ==> PostedEverywhere(trails, id))
    ensures var cs := TurnColumns(columns, id, up, |live|);
      && ColumnsOK(schema, cs, live[id := up], trails) && AllSized(cs, |live|)
      && Records(cs, payload) == Records(columns, payload)
  {
    hide ColumnOK, Turned, ValueAt;
    var cs := TurnColumns(columns, id, up, |live|);
    forall a | 0 <= a < |columns|
      ensures FieldOK(schema[a], cs[a], live[id := up], trails[a]) && Sized(cs[a], |live|)
      ensures forall i :: 0 <= i < |live| ==> ValueAt(cs[a], i) == ValueAt(columns[a], i)
    {
      assert FieldOK(schema[a], columns[a], live, trails[a]);
      TurnKeeps(columns[a], live, trails[a], id, up);
      forall i | 0 <= i < |live|
        ensures ValueAt(cs[a], i) == ValueAt(columns[a], i)
      {
        SameValues(columns[a], cs[a], i);
      }
    }
    SameRecords(columns, cs, payload);
  }

  lemma SameRecords(columns: seq<Column>, cs: seq<Column>, payload: seq<Str>)
    requires AllSized(columns, |payload|) && AllSized(cs, |payload|) && |cs| == |columns|
    requires forall a, i :: 0 <= a < |cs| && 0 <= i < |payload| ==> ValueAt(cs[a], i) == ValueAt(columns[a], i)
    ensures Records(cs, payload) == Records(columns, payload)
  {
    hide ValueAt;
    var x, y := Records(cs, payload), Records(columns, payload);
    forall i | 0 <= i < |x| ensures x[i] == y[i] { assert x[i].attrs == y[i].attrs; }
  }

  function SetColumns(columns: seq<Column>, id: nat, rec: W.Record, n: nat): seq<Column>
    requires AllSized(columns, n) && id < n
  {
    seq(|columns|, a requires 0 <= a < |columns| => SetCell(columns[a], id, AttrOf(rec, a)))
  }

  function SetTrails(columns: seq<Column>, trails: seq<Trail>, id: nat, n: nat): seq<Trail>
    requires AllSized(columns, n) && id < n && |columns| == |trails|
    requires forall a :: 0 <= a < |trails| ==> |trails[a].posted| == n
  {
    seq(|trails|, a requires 0 <= a < |trails| => Overwritten(trails[a], id, Codes(columns[a], id)))
  }

  lemma SetColumnsOK(schema: seq<Spec>, columns: seq<Column>, payload: seq<Str>, live: seq<bool>, trails: seq<Trail>,
    id: nat, rec: W.Record)
    requires ColumnsOK(schema, columns, live, trails) && AllSized(columns, |live|) && |payload| == |live|
    requires forall a :: 0 <= a < |trails| ==> |trails[a].posted| == |live|
    requires id < |live| && live[id] && Conforms(schema, rec) && TruthValues(rec)
    ensures var cs := SetColumns(columns, id, rec, |live|);
      && ColumnsOK(schema, cs, live, SetTrails(columns, trails, id, |live|)) && AllSized(cs, |live|)
      && Records(cs, payload[id := rec.payload]) == Records(columns, payload)[id := Normal(schema, rec)]
  {
    hide ColumnOK, SetCell, ValueAt, Conforms, TruthValues, Codes, Pairs, AttrOf;
    var cs, trs := SetColumns(columns, id, rec, |live|), SetTrails(columns, trails, id, |live|);
    forall a | 0 <= a < |columns|
      ensures FieldOK(schema[a], cs[a], live, trs[a]) && Sized(cs[a], |live|)
      ensures ValueAt(cs[a], id) == AttrOf(rec, a)
      ensures forall i :: 0 <= i < |live| && i != id ==> ValueAt(cs[a], i) == ValueAt(columns[a], i)
    {
      assert FieldOK(schema[a], columns[a], live, trails[a]);
      ConformsAccepts(schema, rec, a);
      SetKeeps(columns[a], id, AttrOf(rec, a), live, trails[a]);
      SetValues(columns[a], id, AttrOf(rec, a), live, trails[a]);
    }
    var x, y := Records(cs, payload[id := rec.payload]), Records(columns, payload)[id := Normal(schema, rec)];
    forall i | 0 <= i < |x| ensures x[i] == y[i] { assert x[i].attrs == y[i].attrs; }
  }

  function PermuteColumns(columns: seq<Column>, ids: seq<nat>, n: nat): seq<Column>
    requires AllSized(columns, n) && forall i :: 0 <= i < |ids| ==> ids[i] < n
  {
    seq(|columns|, a requires 0 <= a < |columns| => Permuted(columns[a], ids))
  }

  function FreshTrails(k: nat, posted: seq<bool>): seq<Trail> { seq(k, _ => Trail(posted, multiset{})) }

  lemma PermuteColumnsOK(schema: seq<Spec>, columns: seq<Column>, payload: seq<Str>, live: seq<bool>,
    trails: seq<Trail>)
    requires ColumnsOK(schema, columns, live, trails) && AllSized(columns, |live|) && |payload| == |live|
    ensures forall i :: 0 <= i < |LiveIds(live)| ==> LiveIds(live)[i] < |live|
    ensures var ids := LiveIds(live); var m := |ids|; var cs := PermuteColumns(columns, ids, |live|);
      && ColumnsOK(schema, cs, First(m, m), FreshTrails(|schema|, First(m, m))) && AllSized(cs, m)
      && Records(cs, Pick(payload, ids)) == Pick(Records(columns, payload), ids)
  {
    hide ColumnOK, Permuted, ValueAt, LiveIds;
    LiveIdsFacts(live);
    var ids := LiveIds(live);
    var m, cs := |ids|, PermuteColumns(columns, ids, |live|);
    forall a | 0 <= a < |columns|
      ensures FieldOK(schema[a], cs[a], First(m, m), FreshTrails(|schema|, First(m, m))[a]) && Sized(cs[a], m)
      ensures forall i :: 0 <= i < m ==> ValueAt(cs[a], i) == ValueAt(columns[a], ids[i])
    {
      assert FieldOK(schema[a], columns[a], live, trails[a]);
      PermuteKeeps(columns[a], live, trails[a]);
      PermuteValues(columns[a], live, trails[a]);
    }
    var x, y := Records(cs, Pick(payload, ids)), Pick(Records(columns, payload), ids);
    forall i | 0 <= i < |x| ensures x[i] == y[i] { assert x[i].attrs == y[i].attrs; }
  }

  // ----- rebuilding -----

  function ClearColumns(columns: seq<Column>): seq<Column> {
    seq(|columns|, a requires 0 <= a < |columns| => Cleared(columns[a]))
  }

  function ReaddColumns(columns: seq<Column>, id: nat, n: nat): seq<Column>
    requires AllSized(columns, n) && id < n
  {
    seq(|columns|, a requires 0 <= a < |columns| => Readded(columns[a], id))
  }

  // The rows below i that are not deleted.
  function AliveBelow(deleted: seq<bool>, i: nat): (b: seq<bool>)
    ensures |b| == |deleted|
  {
    seq(|deleted|, j requires 0 <= j < |deleted| => j < i && !deleted[j])
  }

  ghost predicate RowsStored(schema: seq<Spec>, columns: seq<Column>, n: nat) {
    && |columns| == |schema|
    && forall a :: 0 <= a < |columns| ==>
         ShapeOK(columns[a], n) && columns[a].kind == schema[a].kind && (columns[a].index.Some? <==> schema[a].indexed)
  }

  lemma ClearColumnsOK(schema: seq<Spec>, columns: seq<Column>, payload: seq<Str>, deleted: seq<bool>)
    requires RowsStored(schema, columns, |deleted|) && |payload| == |deleted|
    ensures AllSized(columns, |deleted|)
    ensures var cs, none := ClearColumns(columns), AliveBelow(deleted, 0);
      && ColumnsOK(schema, cs, none, FreshTrails(|schema|, none)) && AllSized(cs, |deleted|)
      && Records(cs, payload) == Records(columns, payload)
  {
    hide ShapeOK, ColumnOK, ValueAt, Cleared;
    var cs, none := ClearColumns(columns), AliveBelow(deleted, 0);
    assert none == Falses(|deleted|);
    forall a | 0 <= a < |columns|
      ensures FieldOK(schema[a], cs[a], none, FreshTrails(|schema|, none)[a]) && Sized(cs[a], |deleted|) &&
        Sized(columns[a], |deleted|)
      ensures forall i :: 0 <= i < |deleted| ==> ValueAt(cs[a], i) == ValueAt(columns[a], i)
    {
      ShapeWidth(columns[a], |deleted|);
      ClearKeeps(columns[a], |deleted|);
      forall i | 0 <= i < |deleted|
        ensures ValueAt(cs[a], i) == ValueAt(columns[a], i)
      {
        SameValues(columns[a], cs[a], i);
      }
    }
    SameRecords(columns, cs, payload);
  }

  lemma ReaddColumnsOK(schema: seq<Spec>, columns: seq<Column>, payload: seq<Str>, deleted: seq<bool>, id: nat)
    requires id < |deleted| == |payload| && AllSized(columns, |deleted|)
    requires ColumnsOK(schema, columns, AliveBelow(deleted, id), FreshTrails(|schema|, AliveBelow(deleted, id)))
    ensures var cs := if deleted[id] then columns else ReaddColumns(columns, id, |deleted|);
      && ColumnsOK(schema, cs, AliveBelow(deleted, id + 1), FreshTrails(|schema|, AliveBelow(deleted, id + 1)))
      && AllSized(cs, |deleted|) && Records(cs, payload) == Records(columns, payload)
  {
    hide ColumnOK, ValueAt, Readded;
    var live, live' := AliveBelow(deleted, id), AliveBelow(deleted, id + 1);
    if deleted[id] {
      assert live' == live;
    } else {
      assert live' == live[id := true];
      var cs := ReaddColumns(columns, id, |deleted|);
      var trs, trs' := FreshTrails(|schema|, live), FreshTrails(|schema|, live');
      forall a | 0 <= a < |columns|
        ensures FieldOK(schema[a], cs[a], live', trs'[a]) && Sized(cs[a], |deleted|)
        ensures forall i :: 0 <= i < |deleted| ==> ValueAt(cs[a], i) == ValueAt(columns[a], i)
      {
        assert FieldOK(schema[a], columns[a], live, trs[a]);
        ReaddKeeps(columns[a], id, live, trs[a]);
        forall i | 0 <= i < |deleted|
          ensures ValueAt(cs[a], i) == ValueAt(columns[a], i)
        {
          SameValues(columns[a], cs[a], i);
        }
      }
      SameRecords(columns, cs, payload);
    }
  }
}
