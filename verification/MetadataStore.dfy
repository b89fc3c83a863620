/** The metadata store as an object: columns, dictionaries, counters, postings and indexes
    changed in place, row by row and column by column. */
module MetadataStores {
  import opened Basics
  import opened TreeKeys
  import opened SortedPairs
  import W = WalRecords
  import opened MetaColumn
  import opened MetaRows
  import opened Terms
  import opened MetaResolve
  import opened MetaTable

  predicate Indexable(s: Spec) { s.indexed ==> s.kind.KInt? || s.kind.KFloat? }

  // Neither a counter nor a dictionary is exceeded when row id turns.
  ghost predicate CanTurn(c: Column, id: nat, up: bool) {
    && Sized(c, |c.present|) && id < |c.present|
    && Distinct(Codes(c, id))
    && (forall i :: 0 <= i < |Codes(c, id)| ==>
          Codes(c, id)[i] < |c.count| && (up || c.count[Codes(c, id)[i]] > 0))
    && (!up && c.present[id] && c.kind.KText? ==> c.liveDocs > 0 && c.totalLen >= c.docLen[id])
    && (c.present[id] && (c.kind.KInt? || c.kind.KFloat?) ==> c.data[id] < W.LONG_LIMIT)
  }

  // In a column that is kept, no counter ever wraps.
  lemma MayTurn(c: Column, live: seq<bool>, tr: Trail, id: nat, up: bool)
    requires ColumnOK(c, live, tr) && id < |live| && live[id] != up
    ensures CanTurn(c, id, up) && |c.present| == |live|
  {
    hide Sum, Codes, IndexOK, PostingsOK;
    ColumnFacts(c, live, tr);
    CodesFacts(c, |live|, id);
    assert RowOK(c, id);
    if !up {
      NoneAtZero(c, live, id);
      assert live[id := true] == live;
      SumFlip(Docs(c), live, id);
      SumFlip(Lengths(c), live, id);
    }
  }

  // Counting and indexing do not change what a row may be posted under.
  lemma TurnedFits(c: Column, id: nat, up: bool)
    requires CanTurn(c, id, up)
    ensures id < |c.present| && SameRows(c, Counted(c, id, up)) && Sized(Counted(c, id, up), |c.present|)
    ensures SameRows(c, Turned(c, id, up)) && Sized(Turned(c, id, up), |c.present|)
  {
    hide BumpAll, Added, Dropped;
  }

  lemma ReadySized(c: Column, v: W.AttrValue)
    requires Sized(c, |c.present|)
    ensures var c' := Ready(c, v); Sized(c', |c.present|) && c'.present == c.present && c'.kind == c.kind
  {
    match v
    case Tag(t) => InternSame(c, t);
    case Text(t) => InternAllSame(c, Tokenize(t));
    case _ =>
  }

  lemma PostOne(ps: seq<seq<nat>>, code: nat, id: nat)
    ensures PostAll(ps, [code], id) == if code < |ps| then ps[code := ps[code] + [id]] else ps
  {
    assert [code][..0] == [];
  }

  lemma NoTerms(c: Column)
    ensures TermsOf(c.dict, []) == [] && AllIn([], c.dict)
  {
  }

  // One more token: the codes so far keep their meaning.
  lemma TermsNext(c: Column, toks: seq<Str>, i: nat)
    requires i < |toks| && AllIn(toks[..i], c.dict)
    ensures var d := Interned(c, toks[i]).dict; var before, code := TermsOf(c.dict, toks[..i]), IndexOf(d, toks[i]);
      AllIn(toks[..i + 1], d) && TermsOf(d, toks[..i + 1]) == if code in before then before else before + [code]
  {
    var d := Interned(c, toks[i]).dict;
    assert d == c.dict + d[|c.dict|..];
    TermsStable(c.dict, d[|c.dict|..], toks[..i]);
    assert toks[..i + 1][..i] == toks[..i];
    assert toks[i] in c.dict || d[|c.dict|] == toks[i];
    assert forall j :: 0 <= j < i ==> toks[..i + 1][j] == toks[..i][j];
  }

  // A column with one more row that is not posted yet.
  function Grown(c: Column, v: W.AttrValue): Column {
    var c1 := Ready(c, v);
    Extended(c1, CellOf(c1, v))
  }

  // Row id may be posted.
  ghost predicate CanPost(c: Column, id: nat) {
    && Sized(c, |c.present|) && id < |c.present| && Distinct(Codes(c, id))
    && forall i :: 0 <= i < |Codes(c, id)| ==> Codes(c, id)[i] < |c.postings|
  }

  lemma MayPost(c: Column, live: seq<bool>, tr: Trail, id: nat)
    requires ColumnOK(c, live, tr) && id < |live|
    ensures CanPost(c, id) && |c.present| == |live|
  {
    CodesFacts(c, |live|, id);
  }

  lemma GrownFits(c: Column, v: W.AttrValue, live: seq<bool>, tr: Trail)
    requires ColumnOK(c, live, tr) && Accepts(c.kind, v)
    ensures Sized(c, |live|) && Sized(c, |c.present|)
    ensures CanPost(Grown(c, v), |live|) && AppendCell(c, v) == Posted(Grown(c, v), |live|)
  {
    hide ColumnOK, Ready, Extended, Posted, CellOf, CellOK, CanPost;
    ColumnFacts(c, live, tr);
    ReadyKeeps(c, v, live, tr);
    ExtendKeeps(Ready(c, v), CellOf(Ready(c, v), v), live, tr);
    var tr1 := tr.(posted := tr.posted + [false]);
    MayPost(Grown(c, v), live + [false], tr1, |live|);
    ColumnFacts(Grown(c, v), live + [false], tr1);
  }

  lemma CopiedFits(c: Column, src: nat, live: seq<bool>, tr: Trail)
    requires ColumnOK(c, live, tr) && src < |live|
    ensures Sized(c, |live|) && CanPost(Extended(c, CellAt(c, src)), |live|)
    ensures CopyCell(c, src) == Posted(Extended(c, CellAt(c, src)), |live|)
  {
    hide CountsOK, IndexOK, PostingsOK, Extended, Posted, CanPost;
    assert RowOK(c, src);
    ExtendKeeps(c, CellAt(c, src), live, tr);
    var c2, tr2 := Extended(c, CellAt(c, src)), tr.(posted := tr.posted + [false]);
    ColumnFacts(c2, live + [false], tr2);
    MayPost(c2, live + [false], tr2, |live|);
  }

  // The steps of `set_row` on one column.
  lemma SetFits(c: Column, id: nat, v: W.AttrValue, live: seq<bool>, tr: Trail)
    requires ColumnOK(c, live, tr) && Accepts(c.kind, v) && id < |live| && live[id]
    ensures CanTurn(c, id, false)
    ensures var c1 := Ready(Turned(c, id, false), v);
      && Turned(c, id, false).kind == c.kind
      && Sized(c1, |c1.present|) && id < |c1.present|
      && var c2 := Replaced(c1, id, CellOf(c1, v));
      && CanTurn(c2, id, true) && CanPost(Turned(c2, id, true), id)
      && SetCell(c, id, v) == Posted(Turned(c2, id, true), id)
  {
    hide ColumnOK, Turned, Ready, Replaced, Posted, CellOf, CellOK, Codes, Pairs, CanTurn, CanPost;
    ColumnFacts(c, live, tr);
    MayTurn(c, live, tr, id, false);
    var off := live[id := false];
    TurnKeeps(c, live, tr, id, false);
    var c0 := Turned(c, id, false);
    ReadyKeeps(c0, v, off, tr);
    var c1 := Ready(c0, v);
    ColumnFacts(c1, off, tr);
    ReplaceKeeps(c1, id, CellOf(c1, v), off, tr);
    var c2, tr2 := Replaced(c1, id, CellOf(c1, v)), After(tr, id, Codes(c1, id));
    ColumnFacts(c2, off, tr2);
    MayTurn(c2, off, tr2, id, true);
    TurnKeeps(c2, off, tr2, id, true);
    MayPost(Turned(c2, id, true), off[id := true], tr2, id);
  }

  function GrownColumns(columns: seq<Column>, rec: W.Record): seq<Column> {
    seq(|columns|, a requires 0 <= a < |columns| => Grown(columns[a], AttrOf(rec, a)))
  }

  function CopiedColumns(columns: seq<Column>, src: nat, n: nat): seq<Column>
    requires AllSized(columns, n) && src < n
  {
    seq(|columns|, a requires 0 <= a < |columns| => Extended(columns[a], CellAt(columns[a], src)))
  }

  ghost predicate AllCanPost(columns: seq<Column>, id: nat) {
    forall a :: 0 <= a < |columns| ==> CanPost(columns[a], id)
  }

  function PostedColumns(columns: seq<Column>, id: nat): seq<Column>
    requires AllCanPost(columns, id)
  {
    seq(|columns|, a requires 0 <= a < |columns| && CanPost(columns[a], id) => Posted(columns[a], id))
  }

  lemma AppendInTwo(schema: seq<Spec>, columns: seq<Column>, live: seq<bool>, trails: seq<Trail>, rec: W.Record)
    requires ColumnsOK(schema, columns, live, trails) && AllSized(columns, |live|)
    requires Conforms(schema, rec) && TruthValues(rec)
    ensures forall a :: 0 <= a < |columns| ==>
      Sized(columns[a], |columns[a].present|) && Accepts(columns[a].kind, AttrOf(rec, a))
    ensures AllCanPost(GrownColumns(columns, rec), |live|)
    ensures AppendColumns(columns, rec, |live|) == PostedColumns(GrownColumns(columns, rec), |live|)
  {
    hide ColumnOK, AppendCell, Grown, Posted, Accepts, Conforms, TruthValues, Codes;
    forall a | 0 <= a < |columns|
      ensures Sized(columns[a], |columns[a].present|) && Accepts(columns[a].kind, AttrOf(rec, a))
      ensures CanPost(Grown(columns[a], AttrOf(rec, a)), |live|)
      ensures AppendCell(columns[a], AttrOf(rec, a)) == Posted(Grown(columns[a], AttrOf(rec, a)), |live|)
    {
      assert FieldOK(schema[a], columns[a], live, trails[a]);
      ConformsAccepts(schema, rec, a);
      GrownFits(columns[a], AttrOf(rec, a), live, trails[a]);
    }
  }

  lemma CopyInTwo(schema: seq<Spec>, columns: seq<Column>, live: seq<bool>, trails: seq<Trail>, src: nat)
    requires ColumnsOK(schema, columns, live, trails) && AllSized(columns, |live|) && src < |live|
    ensures AllCanPost(CopiedColumns(columns, src, |live|), |live|)
    ensures CopyColumns(columns, src, |live|) == PostedColumns(CopiedColumns(columns, src, |live|), |live|)
  {
    hide ColumnOK, CopyCell, Posted, Extended, Codes, CellAt;
    forall a | 0 <= a < |columns|
      ensures CanPost(CopiedColumns(columns, src, |live|)[a], |live|)
      ensures CopyCell(columns[a], src) == Posted(CopiedColumns(columns, src, |live|)[a], |live|)
    {
      assert FieldOK(schema[a], columns[a], live, trails[a]);
      CopiedFits(columns[a], src, live, trails[a]);
    }
  }

  ghost predicate AllCanTurn(columns: seq<Column>, id: nat, up: bool) {
    forall a :: 0 <= a < |columns| ==> CanTurn(columns[a], id, up)
  }

  function TurnedAll(columns: seq<Column>, id: nat, up: bool): seq<Column>
    requires AllCanTurn(columns, id, up)
  {
    seq(|columns|, a requires 0 <= a < |columns| && CanTurn(columns[a], id, up) => Turned(columns[a], id, up))
  }

  ghost predicate AllCanReadd(columns: seq<Column>, id: nat) {
    forall a :: 0 <= a < |columns| ==> CanTurn(columns[a], id, true) && CanPost(Turned(columns[a], id, true), id)
  }

  function ReaddedAll(columns: seq<Column>, id: nat): seq<Column>
    requires AllCanReadd(columns, id)
  {
    seq(|columns|, a requires 0 <= a < |columns| && CanTurn(columns[a], id, true) => Readded(columns[a], id))
  }

  lemma ReaddedIs(c: Column, id: nat)
    requires CanTurn(c, id, true) && CanPost(Turned(c, id, true), id)
    ensures Readded(c, id) == Posted(Turned(c, id, true), id)
  {
  }

  lemma AllMayTurn(schema: seq<Spec>, columns: seq<Column>, live: seq<bool>, trails: seq<Trail>, id: nat, up: bool)
    requires ColumnsOK(schema, columns, live, trails) && id < |live| && live[id] != up
    ensures AllCanTurn(columns, id, up)
  {
    hide ColumnOK, CanTurn;
    forall a | 0 <= a < |columns| ensures CanTurn(columns[a], id, up) {
      assert FieldOK(schema[a], columns[a], live, trails[a]);
      MayTurn(columns[a], live, trails[a], id, up);
    }
  }

  lemma PickedFits(c: Column, live: seq<bool>, tr: Trail)
    requires ColumnOK(c, live, tr)
    ensures var ids := LiveIds(live);
      && Sized(c, |c.present|) && (forall i :: 0 <= i < |ids| ==> ids[i] < |c.present|)
      && forall i :: 0 <= i < |ids| ==> CanPost(PickRows(c, ids), i)
  {
    hide LiveIds, RowOK, CountsOK, IndexOK, PostingsOK;
    PickShape(c, live);
    var ids := LiveIds(live);
    forall i | 0 <= i < |ids| ensures CanPost(PickRows(c, ids), i) { CodesFacts(PickRows(c, ids), |ids|, i); }
  }

  lemma AllMayReadd(schema: seq<Spec>, columns: seq<Column>, deleted: seq<bool>, id: nat)
    requires id < |deleted| && !deleted[id] && AllSized(columns, |deleted|)
    requires ColumnsOK(schema, columns, AliveBelow(deleted, id), FreshTrails(|schema|, AliveBelow(deleted, id)))
    ensures AllCanReadd(columns, id)
  {
    hide ColumnOK, CanTurn, CanPost, Turned;
    var live := AliveBelow(deleted, id);
    var trails := FreshTrails(|schema|, live);
    forall a | 0 <= a < |columns| ensures CanTurn(columns[a], id, true) && CanPost(Turned(columns[a], id, true), id) {
      assert FieldOK(schema[a], columns[a], live, trails[a]);
      MayTurn(columns[a], live, trails[a], id, true);
      TurnKeeps(columns[a], live, trails[a], id, true);
      MayPost(Turned(columns[a], id, true), live[id := true], trails[a], id);
    }
  }

  lemma PermutedIs(c: Column, ids: seq<nat>)
    requires Sized(c, |c.present|) && forall i :: 0 <= i < |ids| ==> ids[i] < |c.present|
    ensures var c1 := PickRows(c, ids);
      && Sized(c1, |c1.present|) && |c1.present| == |ids|
      && var c2 := c1.(postings := FillPostings(c1, |ids|));
      && Sized(c2, |c2.present|) && Permuted(c, ids) == c2.(index := FillIndex(c2, |ids|))
  {
    hide Refilled, FillPostings, FillIndex;
    var c1 := PickRows(c, ids);
    FillsRefill(c1, |ids|);
    FillIndexSame(c1, c1.(postings := FillPostings(c1, |ids|)), |ids|);
  }

  lemma {:induction false} FillIndexSame(c: Column, c': Column, i: nat)
    requires Sized(c, |c.present|) && SameRows(c, c') && c'.index == c.index && i <= |c.present|
    ensures FillIndex(c', i) == FillIndex(c, i)
  {
    if i > 0 {
      FillIndexSame(c, c', i - 1);
      SameRowsRead(c, c');
    }
  }

  lemma RangeUntouched(c: Column, live: seq<bool>, tr: Trail, p: Predicate)
    requires p.Range?
    ensures Untouched(c, live, tr, p)
  {
  }

  lemma RangeComplete(c: Column, live: seq<bool>, p: Predicate, ids: seq<nat>)
    requires Sized(c, |live|) && |c.present| == |live| && Answers(c, live, p, ids)
    ensures forall i: nat :: i < |live| && live[i] && Holds(c, p, i) ==> i in ids
    ensures forall i :: 0 <= i < |ids| ==> ids[i] < |live| && live[ids[i]]
  {
    hide Holds;
    assert forall i :: 0 <= i < |ids| ==> ids[i] in ids;
  }

  lemma RecordAt(columns: seq<Column>, payload: seq<Str>, id: nat)
    requires AllSized(columns, |payload|) && id < |payload|
    ensures |Records(columns, payload)| == |payload| && Records(columns, payload)[id] == RecordOf(columns, payload, id)
  {
  }

  // A table of which the first k columns are done.
  function Mixed(done: seq<Column>, rest: seq<Column>, k: nat): seq<Column>
    requires k <= |done| == |rest|
  {
    done[..k] + rest[k..]
  }

  lemma SizedAt(columns: seq<Column>, n: nat, a: nat)
    requires AllSized(columns, n) && a < |columns|
    ensures Sized(columns[a], n) && |columns[a].present| == n
  {
  }

  lemma NoneFilled(c: Column)
    requires Sized(c, |c.present|)
    ensures FillIndex(c, 0) == c.index
  {
  }

  lemma FillIndexStep(c: Column, i: nat)
    requires Sized(c, |c.present|) && i < |c.present|
    ensures Sized(c.(index := FillIndex(c, i)), |c.present|)
    ensures c.(index := FillIndex(c, i + 1)) == Indexed(c.(index := FillIndex(c, i)), i, true)
  {
    hide Added;
    FillsRefill(c, i);
  }

  lemma MixedEnds(done: seq<Column>, rest: seq<Column>)
    requires |done| == |rest|
    ensures Mixed(done, rest, 0) == rest && Mixed(done, rest, |done|) == done
  {
  }

  lemma MixedStep(done: seq<Column>, rest: seq<Column>, k: nat)
    requires k < |done| == |rest|
    ensures |Mixed(done, rest, k)| == |done| && Mixed(done, rest, k)[k] == rest[k]
    ensures Mixed(done, rest, k)[k := done[k]] == Mixed(done, rest, k + 1)
  {
  }

  class MetadataStore {
    const schema: seq<Spec>
    var columns: seq<Column>
    var payload: seq<Str>
    var rows: nat

    // The rows that are counted, and what happened to the postings of each column.
    ghost var live: seq<bool>
    ghost var trails: seq<Trail>

    ghost predicate Valid()
      reads this
    {
      && |payload| == |live| == rows
      && ColumnsOK(schema, columns, live, trails) && AllSized(columns, rows)
      && forall a :: 0 <= a < |trails| ==> |trails[a].posted| == rows
    }

    // What the rows hold, whether they are counted or not.
    ghost function Contents(): (recs: seq<W.Record>)
      requires Valid()
      reads this
      ensures |recs| == rows
    {
      Records(columns, payload)
    }

    constructor (schema: seq<Spec>)
      requires forall a :: 0 <= a < |schema| ==> Indexable(schema[a])
      ensures Valid() && this.schema == schema && live == [] && Contents() == []
      ensures trails == FreshTrails(|schema|, [])
    {
      this.schema := schema;
      columns := seq(|schema|, a requires 0 <= a < |schema| => EmptyColumn(schema[a]));
      payload, rows, live := [], 0, [];
      trails := FreshTrails(|schema|, []);
      new;
      forall a | 0 <= a < |columns| ensures FieldOK(schema[a], columns[a], [], trails[a]) && Sized(columns[a], 0) {
        EmptyColumnOK(schema[a]);
      }
    }

    method Validate(rec: W.Record) returns (ok: bool)
      ensures ok <==> Conforms(schema, rec)
    {
      if rec.attrs == [] { return true; }
      if |rec.attrs| != |schema| { return false; }
      for a := 0 to |schema|
        invariant forall i :: 0 <= i < a ==> KindFits(schema[i].kind, rec.attrs[i])
      {
        if !rec.attrs[a].Null? && !KindFits(schema[a].kind, rec.attrs[a]) { return false; }
      }
      return true;
    }

    // ----- one column -----

    // The loop over the terms of a text row.
    static method AdjustTerms(before: seq<nat>, terms: seq<nat>, up: bool) returns (count: seq<nat>)
      requires Distinct(terms)
      requires forall i :: 0 <= i < |terms| ==> terms[i] < |before| && (up || before[terms[i]] > 0)
      ensures count == BumpAll(before, terms, up)
    {
      count := before;
      for i := 0 to |terms|
        invariant count == BumpAll(before, terms[..i], up) && |count| == |before|
      {
        BumpAllAt(before, terms[..i], up);
        assert terms[..i + 1][..i] == terms[..i];
        var code := terms[i];
        assert code !in terms[..i];
        count := count[code := if up then count[code] + 1 else count[code] - 1];
      }
      assert terms[..|terms|] == terms;
    }

    // `adjust_count_`.
    method AdjustCount(a: nat, id: nat, up: bool)
      requires a < |columns| && CanTurn(columns[a], id, up)
      modifies this`columns
      ensures columns == old(columns)[a := Counted(old(columns)[a], id, up)]
    {
      hide BumpAll;
      var c := columns[a];
      assert columns == columns[a := c];
      if !c.present[id] { return; }
      if c.kind.KText? {
        assert c.terms[id] == Codes(c, id);
        var count := AdjustTerms(c.count, c.terms[id], up);
        columns := columns[a := c.(count := count,
                                   liveDocs := if up then c.liveDocs + 1 else c.liveDocs - 1,
                                   totalLen := if up then c.totalLen + c.docLen[id] else c.totalLen - c.docLen[id])];
      } else if c.kind.KTag? || c.kind.KBool? {
        var code := CodeAt(c.kind, c.data[id]);
        assert Codes(c, id)[0] == code;
        columns := columns[a := c.(count := c.count[code := if up then c.count[code] + 1 else c.count[code] - 1])];
      }
    }

    // `adjust_index_`: one insert into, or one remove from, the column's B+-tree.
    method AdjustIndex(a: nat, id: nat, up: bool)
      requires a < |columns| && Sized(columns[a], |columns[a].present|) && id < |columns[a].present|
      modifies this`columns
      ensures columns == old(columns)[a := Indexed(old(columns)[a], id, up)]
    {
      var c := columns[a];
      assert columns == columns[a := c];
      if c.index.None? || !c.present[id] { return; }
      var key := KeyOf(c.kind, c.data[id]);
      if up {
        columns := columns[a := c.(index := Some(Added(c.index.value, key, id)))];
      } else {
        columns := columns[a := c.(index := Some(Dropped(c.index.value, (key, id))))];
      }
    }

    // `add_posting_`.
    method AddPosting(a: nat, id: nat)
      requires a < |columns| && CanPost(columns[a], id)
      modifies this`columns
      ensures columns == old(columns)[a := Posted(old(columns)[a], id)]
    {
      var c := columns[a];
      assert columns == columns[a := c];
      if !c.present[id] { return; }
      if c.kind.KText? {
        var terms, postings := c.terms[id], c.postings;
        assert terms == Codes(c, id);
        for i := 0 to |terms|
          invariant columns == old(columns)
          invariant postings == PostAll(c.postings, terms[..i], id) && |postings| == |c.postings|
        {
          PostAllAt(c.postings, terms[..i], id);
          assert terms[..i + 1][..i] == terms[..i];
          postings := postings[terms[i] := postings[terms[i]] + [id]];
        }
        assert terms[..|terms|] == terms;
        columns := columns[a := c.(postings := postings)];
        return;
      }
      if c.kind.KTag? || c.kind.KBool? {
        var code := CodeAt(c.kind, c.data[id]);
        assert Codes(c, id)[0] == code;
        PostOne(c.postings, code, id);
        columns := columns[a := c.(postings := c.postings[code := c.postings[code] + [id]])];
        return;
      }
      assert Codes(c, id) == [];
    }

    // `intern_`.
    method Intern(a: nat, s: Str) returns (code: nat)
      requires a < |columns|
      modifies this`columns
      ensures columns == old(columns)[a := Interned(old(columns)[a], s)]
      ensures code == IndexOf(columns[a].dict, s) && s in columns[a].dict
    {
      var c := columns[a];
      assert columns == columns[a := c];
      code := IndexOf(c.dict, s);
      if code < |c.dict| { return; }
      code := |c.dict|;
      columns := columns[a := c.(dict := c.dict + [s], count := c.count + [0], postings := c.postings + [[]])];
      assert columns[a].dict[code] == s;
    }

    // `intern_terms_`: the codes are collected while the dictionary still grows.
    method InternTerms(a: nat, text: Str) returns (codes: seq<nat>, docLen: nat)
      requires a < |columns|
      modifies this`columns
      ensures var c := InternedAll(old(columns)[a], Tokenize(text));
        && columns == old(columns)[a := c] && docLen == |Tokenize(text)| && codes == TermsOf(c.dict, Tokenize(text))
    {
      hide Interned, IndexOf, TermsOf, AllIn, Tokenize;
      var toks := TokenizeText(text);
      docLen := |toks|;
      codes := [];
      var seen: set<nat> := {};
      ghost var c := columns[a];
      assert columns == columns[a := c];
      NoTerms(c);
      assert toks[..0] == [];
      for i := 0 to |toks|
        invariant a < |columns| && columns == old(columns)[a := InternedAll(c, toks[..i])]
        invariant AllIn(toks[..i], columns[a].dict)
        invariant codes == TermsOf(columns[a].dict, toks[..i]) && forall k :: k in seen <==> k in codes
      {
        TermsNext(columns[a], toks, i);
        assert toks[..i + 1][..i] == toks[..i];
        var code := Intern(a, toks[i]);
        if code !in seen {
          seen := seen + {code};
          codes := codes + [code];
        }
      }
      assert toks[..|toks|] == toks;
    }

    // The value part of `append_row`.
    method ExtendColumn(a: nat, v: W.AttrValue)
      requires a < |columns| && Sized(columns[a], |columns[a].present|) && Accepts(columns[a].kind, v)
      modifies this`columns
      ensures var c := Ready(old(columns)[a], v); columns == old(columns)[a := Extended(c, CellOf(c, v))]
    {
      if v.Null? {
        columns := columns[a := Extended(columns[a], Cell(0, false, [], 0, []))];
      } else if v.Text? {
        var terms, docLen := InternTerms(a, v.text);
        columns := columns[a := Extended(columns[a], Cell(0, true, terms, docLen, v.text))];
      } else if v.Tag? {
        var code := Intern(a, v.text);
        columns := columns[a := Extended(columns[a], Cell(code, true, [], 0, []))];
      } else {
        columns := columns[a := Extended(columns[a], Cell(v.raw, true, [], 0, []))];
      }
    }

    method ExtendWithCopy(a: nat, src: nat)
      requires a < |columns| && Sized(columns[a], |columns[a].present|) && src < |columns[a].present|
      modifies this`columns
      ensures columns == old(columns)[a := Extended(old(columns)[a], CellAt(old(columns)[a], src))]
    {
      var c := columns[a];
      var data, present := c.data + [c.data[src]], c.present + [c.present[src]];
      if c.kind.KText? {
        columns := columns[a := c.(data := data, present := present, terms := c.terms + [c.terms[src]],
                                   docLen := c.docLen + [c.docLen[src]], rawText := c.rawText + [c.rawText[src]])];
      } else {
        columns := columns[a := c.(data := data, present := present)];
      }
    }

    // The value part of `set_row`.
    method OverwriteCell(a: nat, id: nat, v: W.AttrValue)
      requires a < |columns| && Sized(columns[a], |columns[a].present|) && id < |columns[a].present|
      requires Accepts(columns[a].kind, v)
      modifies this`columns
      ensures var c := Ready(old(columns)[a], v);
        Sized(c, |c.present|) && id < |c.present| && columns == old(columns)[a := Replaced(c, id, CellOf(c, v))]
    {
      ReadySized(columns[a], v);
      if v.Null? {
        columns := columns[a := Replaced(columns[a], id, Cell(0, false, [], 0, []))];
      } else if v.Text? {
        var terms, docLen := InternTerms(a, v.text);
        columns := columns[a := Replaced(columns[a], id, Cell(0, true, terms, docLen, v.text))];
      } else if v.Tag? {
        var code := Intern(a, v.text);
        columns := columns[a := Replaced(columns[a], id, Cell(code, true, [], 0, []))];
      } else {
        columns := columns[a := Replaced(columns[a], id, Cell(v.raw, true, [], 0, []))];
      }
    }

    // ----- rows -----

    method PostRow(id: nat)
      requires AllCanPost(columns, id)
      modifies this`columns
      ensures columns == PostedColumns(old(columns), id)
    {
      hide Posted, CanPost, Mixed;
      ghost var was, done := columns, PostedColumns(columns, id);
      MixedEnds(done, was);
      for a := 0 to |columns|
        invariant columns == Mixed(done, was, a)
      {
        MixedStep(done, was, a);
        AddPosting(a, id);
      }
    }

    method ExtendColumns(rec: W.Record)
      requires forall a :: 0 <= a < |columns| ==>
        Sized(columns[a], |columns[a].present|) && Accepts(columns[a].kind, AttrOf(rec, a))
      modifies this`columns
      ensures columns == GrownColumns(old(columns), rec)
    {
      hide Extended, Ready, CellOf, Accepts, Mixed;
      ghost var was, done := columns, GrownColumns(columns, rec);
      MixedEnds(done, was);
      for a := 0 to |columns|
        invariant columns == Mixed(done, was, a)
      {
        MixedStep(done, was, a);
        ExtendColumn(a, AttrOf(rec, a));
      }
    }

    // A new row, which is not live yet; a record without attributes stands for nulls.
    method AppendRow(rec: W.Record) returns (ok: bool)
      requires Valid() && TruthValues(rec)
      modifies this
      ensures Valid() && (ok <==> Conforms(schema, rec))
      ensures !ok ==> Contents() == old(Contents()) && live == old(live) && trails == old(trails)
      ensures ok ==> Contents() == old(Contents()) + [Normal(schema, rec)]
      ensures ok ==> live == old(live) + [false] && trails == AppendTrails(old(trails))
    {
      hide ColumnsOK, AppendColumns, GrownColumns, PostedColumns, Accepts, Conforms, Records, TruthValues, AllCanPost;
      ok := Validate(rec);
      if !ok { return; }
      AppendColumnsOK(schema, columns, payload, live, trails, rec);
      AppendInTwo(schema, columns, live, trails, rec);
      var id := rows;
      ExtendColumns(rec);
      payload := payload + [rec.payload];
      rows := rows + 1;
      PostRow(id);
      live, trails := live + [false], AppendTrails(trails);
    }

    method CopyCells(src: nat, ghost n: nat)
      requires AllSized(columns, n) && src < n
      modifies this`columns
      ensures columns == CopiedColumns(old(columns), src, n)
    {
      hide Extended, CellAt, Mixed, Sized;
      ghost var was, done := columns, CopiedColumns(columns, src, n);
      MixedEnds(done, was);
      for a := 0 to |columns|
        invariant columns == Mixed(done, was, a)
      {
        MixedStep(done, was, a);
        SizedAt(was, n, a);
        ExtendWithCopy(a, src);
      }
    }

    // A new row that holds what row src holds.
    method AppendRowCopy(src: nat)
      requires Valid() && src < rows
      modifies this
      ensures Valid() && Contents() == old(Contents()) + [old(Contents())[src]]
      ensures live == old(live) + [false] && trails == AppendTrails(old(trails))
    {
      hide ColumnsOK, CopyColumns, CopiedColumns, PostedColumns, AllCanPost, Records;
      CopyColumnsOK(schema, columns, payload, live, trails, src);
      CopyInTwo(schema, columns, live, trails, src);
      RecordAt(columns, payload, src);
      var id := rows;
      CopyCells(src, id);
      payload := payload + [payload[src]];
      rows := rows + 1;
      PostRow(id);
      live, trails := live + [false], AppendTrails(trails);
    }

    method TurnRow(id: nat, up: bool)
      requires AllCanTurn(columns, id, up)
      modifies this`columns
      ensures columns == TurnedAll(old(columns), id, up)
    {
      hide Counted, Indexed, Codes, Mixed, CanTurn;
      ghost var was, done := columns, TurnedAll(columns, id, up);
      MixedEnds(done, was);
      for a := 0 to |columns|
        invariant columns == Mixed(done, was, a)
      {
        MixedStep(done, was, a);
        TurnedFits(was[a], id, up);
        AdjustCount(a, id, up);
        AdjustIndex(a, id, up);
      }
    }

    // `mark_live`: a row that is posted in every column becomes visible.
    method MarkLive(id: nat)
      requires Valid() && id < rows && !live[id] && PostedEverywhere(trails, id)
      modifies this`columns, this`live
      ensures Valid() && Contents() == old(Contents()) && live == old(live)[id := true]
    {
      hide ColumnOK, Turned, Records;
      TurnColumnsOK(schema, columns, payload, live, trails, id, true);
      AllMayTurn(schema, columns, live, trails, id, true);
      ghost var done := TurnColumns(columns, id, true, rows);
      TurnRow(id, true);
      assert columns == done;
      live := live[id := true];
    }

    // `mark_dead`.
    method MarkDead(id: nat)
      requires Valid() && id < rows && live[id]
      modifies this`columns, this`live
      ensures Valid() && Contents() == old(Contents()) && live == old(live)[id := false]
    {
      hide ColumnOK, Turned, Records;
      TurnColumnsOK(schema, columns, payload, live, trails, id, false);
      AllMayTurn(schema, columns, live, trails, id, false);
      ghost var done := TurnColumns(columns, id, false, rows);
      TurnRow(id, false);
      assert columns == done;
      live := live[id := false];
    }

    // `set_row` on one column.
    method SetColumn(a: nat, id: nat, v: W.AttrValue, ghost live: seq<bool>, ghost tr: Trail)
      requires a < |columns| && ColumnOK(columns[a], live, tr) && Accepts(columns[a].kind, v) && id < |live| && live[id]
      modifies this`columns
      ensures Sized(old(columns)[a], |live|) && columns == old(columns)[a := SetCell(old(columns)[a], id, v)]
    {
      hide ColumnOK, Counted, Indexed, Ready, Replaced, CellOf, SetCell, Posted, Codes, Accepts;
      ghost var c := columns[a];
      ColumnFacts(c, live, tr);
      SetFits(c, id, v, live, tr);
      TurnedFits(c, id, false);
      AdjustCount(a, id, false);
      AdjustIndex(a, id, false);
      OverwriteCell(a, id, v);
      TurnedFits(columns[a], id, true);
      AdjustCount(a, id, true);
      AdjustIndex(a, id, true);
      AddPosting(a, id);
    }

    // A live row gets another value in every column. What it held stays in the postings.
    method SetRow(id: nat, rec: W.Record) returns (ok: bool)
      requires Valid() && TruthValues(rec) && id < rows && live[id]
      modifies this
      ensures Valid() && (ok <==> Conforms(schema, rec)) && live == old(live)
      ensures !ok ==> Contents() == old(Contents()) && trails == old(trails)
      ensures ok ==> Contents() == old(Contents())[id := Normal(schema, rec)]
      ensures ok ==> trails == SetTrails(old(columns), old(trails), id, rows)
    {
      hide ColumnOK, SetCell, Records, Conforms, TruthValues, Accepts, Codes, Mixed;
      ok := Validate(rec);
      if !ok { return; }
      SetColumnsOK(schema, columns, payload, live, trails, id, rec);
      ghost var was, done := columns, SetColumns(columns, id, rec, rows);
      MixedEnds(done, was);
      for a := 0 to |columns|
        modifies this`columns
        invariant columns == Mixed(done, was, a)
      {
        MixedStep(done, was, a);
        assert FieldOK(schema[a], was[a], live, trails[a]);
        ConformsAccepts(schema, rec, a);
        SetColumn(a, id, AttrOf(rec, a), live, trails[a]);
      }
      assert columns == done;
      payload := payload[id := rec.payload];
      trails := SetTrails(was, trails, id, rows);
    }

    // ----- renumbering and rebuilding -----

    // The rows of one column in the new order.
    static method PickCells<T>(s: seq<T>, ids: seq<nat>) returns (r: seq<T>)
      requires forall i :: 0 <= i < |ids| ==> ids[i] < |s|
      ensures r == Pick(s, ids)
    {
      r := [];
      for i := 0 to |ids|
        invariant |r| == i && forall j :: 0 <= j < i ==> r[j] == s[ids[j]]
      {
        r := r + [s[ids[i]]];
      }
    }

    // `permute` on one column: its rows, then its postings, then its index.
    method PermuteColumn(a: nat, ids: seq<nat>)
      requires a < |columns| && Sized(columns[a], |columns[a].present|)
      requires forall i :: 0 <= i < |ids| ==> ids[i] < |columns[a].present|
      requires forall i :: 0 <= i < |ids| ==> CanPost(PickRows(columns[a], ids), i)
      modifies this`columns
      ensures columns == old(columns)[a := Permuted(old(columns)[a], ids)]
    {
      hide PickRows, FillPostings, FillIndex, Refilled, Codes, Permuted;
      PermutedIs(columns[a], ids);
      PickColumn(a, ids);
      FillColumnPostings(a);
      FillColumnIndex(a);
    }

    method FillColumnPostings(a: nat)
      requires a < |columns| && Sized(columns[a], |columns[a].present|)
      requires forall i :: 0 <= i < |columns[a].present| ==> CanPost(columns[a], i)
      modifies this`columns
      ensures var c := old(columns)[a];
        columns == old(columns)[a := c.(postings := FillPostings(c, |c.present|))]
    {
      hide PostAll, Codes;
      ghost var was, c := columns, columns[a];
      for i := 0 to |columns[a].present|
        invariant columns == was[a := c.(postings := FillPostings(c, i))]
        invariant |FillPostings(c, i)| == |c.postings|
      {
        SameRowsRead(c, columns[a]);
        assert CanPost(c, i);
        PostAllAt(FillPostings(c, i), Codes(c, i), i);
        AddPosting(a, i);
      }
    }

    method FillColumnIndex(a: nat)
      requires a < |columns| && Sized(columns[a], |columns[a].present|)
      modifies this`columns
      ensures var c := old(columns)[a]; columns == old(columns)[a := c.(index := FillIndex(c, |c.present|))]
    {
      hide Indexed, FillIndex;
      ghost var was, c := columns, columns[a];
      NoneFilled(c);
      for i := 0 to |columns[a].present|
        invariant columns == was[a := c.(index := FillIndex(c, i))]
      {
        FillIndexStep(c, i);
        AdjustIndex(a, i, true);
      }
    }

    method PickColumn(a: nat, ids: seq<nat>)
      requires a < |columns| && Sized(columns[a], |columns[a].present|)
      requires forall i :: 0 <= i < |ids| ==> ids[i] < |columns[a].present|
      modifies this`columns
      ensures columns == old(columns)[a := PickRows(old(columns)[a], ids)]
    {
      var c := columns[a];
      var data := PickCells(c.data, ids);
      var present := PickCells(c.present, ids);
      var c1 := c.(data := data, present := present, postings := Nones(|c.postings|),
                   index := if c.index.Some? then Some([]) else None);
      if c.kind.KText? {
        var terms := PickCells(c.terms, ids);
        var docLen := PickCells(c.docLen, ids);
        var rawText := PickCells(c.rawText, ids);
        c1 := c1.(terms := terms, docLen := docLen, rawText := rawText);
      }
      columns := columns[a := c1];
    }

    // The live rows, renumbered from zero in their order; the others are dropped.
    method Permute(ids: seq<nat>)
      requires Valid() && ids == LiveIds(live)
      modifies this
      ensures Valid() && rows == |ids| && live == First(|ids|, |ids|)
      ensures forall i :: 0 <= i < |ids| ==> ids[i] < |old(Contents())|
      ensures Contents() == Pick(old(Contents()), ids) && trails == FreshTrails(|schema|, live)
    {
      hide ColumnOK, Permuted, Records, LiveIds, CanPost, Mixed;
      PermuteColumnsOK(schema, columns, payload, live, trails);
      ghost var was, done := columns, PermuteColumns(columns, ids, rows);
      MixedEnds(done, was);
      for a := 0 to |columns|
        modifies this`columns
        invariant columns == Mixed(done, was, a)
      {
        MixedStep(done, was, a);
        assert FieldOK(schema[a], was[a], live, trails[a]);
        PickedFits(was[a], live, trails[a]);
        PermuteColumn(a, ids);
      }
      assert columns == done;
      payload := PickCells(payload, ids);
      rows := |ids|;
      live := First(rows, rows);
      trails := FreshTrails(|schema|, live);
    }

    // `rebuild_derived_state`: counters, postings and indexes from the rows alone.
    method RebuildDerivedState(deleted: seq<bool>)
      requires RowsStored(schema, columns, rows) && rows == |payload| == |deleted|
      modifies this
      ensures AllSized(old(columns), old(|payload|))
      ensures Valid() && rows == old(rows) && Contents() == old(Records(columns, payload))
      ensures live == AliveBelow(deleted, rows) && trails == FreshTrails(|schema|, live)
    {
      hide ColumnOK, ColumnsOK, RowsStored, Records, ClearColumns, Readded, CanTurn, CanPost;
      ClearColumnsOK(schema, columns, payload, deleted);
      ghost var said := Records(columns, payload);
      ClearDerived();
      for id := 0 to rows
        modifies this`columns
        invariant AllSized(columns, rows)
        invariant ColumnsOK(schema, columns, AliveBelow(deleted, id), FreshTrails(|schema|, AliveBelow(deleted, id)))
        invariant Records(columns, payload) == said
      {
        ReaddColumnsOK(schema, columns, payload, deleted, id);
        if !deleted[id] {
          AllMayReadd(schema, columns, deleted, id);
          ghost var done := ReaddColumns(columns, id, rows);
          ReaddRow(id);
          assert columns == done;
        }
      }
      live := AliveBelow(deleted, rows);
      trails := FreshTrails(|schema|, live);
      ColumnsSized(schema, columns, live, trails);
    }

    method ClearDerived()
      modifies this`columns
      ensures columns == ClearColumns(old(columns))
    {
      hide Cleared, Mixed;
      ghost var was, done := columns, ClearColumns(columns);
      MixedEnds(done, was);
      for a := 0 to |columns|
        invariant columns == Mixed(done, was, a)
      {
        MixedStep(done, was, a);
        columns := columns[a := Cleared(columns[a])];
      }
    }

    method ReaddRow(id: nat)
      requires AllCanReadd(columns, id)
      modifies this`columns
      ensures columns == ReaddedAll(old(columns), id)
    {
      hide Counted, Indexed, Codes, Readded, Posted, Mixed, CanTurn;
      ghost var was, done := columns, ReaddedAll(columns, id);
      MixedEnds(done, was);
      for a := 0 to |columns|
        invariant columns == Mixed(done, was, a)
      {
        MixedStep(done, was, a);
        ReaddedIs(was[a], id);
        TurnedFits(was[a], id, true);
        AdjustCount(a, id, true);
        AdjustIndex(a, id, true);
        AddPosting(a, id);
      }
    }

    // ----- reading -----

    // `count`: how many live rows hold a code.
    method Count(a: nat, code: nat) returns (n: nat)
      requires Valid() && a < |columns|
      ensures Sized(columns[a], rows) && |columns[a].present| == rows
      ensures n == |set i: nat | i < rows && live[i] && code in Codes(columns[a], i)|
    {
      hide ColumnOK, Codes;
      assert FieldOK(schema[a], columns[a], live, trails[a]);
      CountIsSize(columns[a], live, trails[a], code);
      n := if code < |columns[a].count| then columns[a].count[code] else 0;
    }

    // `get_row`.
    method GetRow(id: nat) returns (rec: W.Record)
      requires Valid() && id < rows
      ensures rec == Contents()[id]
    {
      hide ValueAt, ColumnsOK;
      var attrs: seq<W.AttrValue> := [];
      for a := 0 to |columns|
        invariant |attrs| == a && forall i :: 0 <= i < a ==> attrs[i] == ValueAt(columns[i], id)
      {
        attrs := attrs + [ValueAt(columns[a], id)];
      }
      rec := W.Record(attrs, payload[id]);
      assert attrs == RecordOf(columns, payload, id).attrs;
    }

    static method Filter(postings: seq<nat>, deleted: seq<bool>, ghost live: seq<bool>) returns (ids: seq<nat>)
      requires |deleted| == |live| && forall i :: 0 <= i < |live| ==> deleted[i] == !live[i]
      ensures ids == Filtered(postings, live)
    {
      ids := [];
      for j := 0 to |postings|
        invariant ids == Filtered(postings[..j], live)
      {
        assert postings[..j + 1][..j] == postings[..j];
        var id := postings[j];
        if id < |deleted| && !deleted[id] { ids := ids + [id]; }
      }
      assert postings[..|postings|] == postings;
    }

    /** The rows that a predicate asks for. An equality that does not fit its column is an
        error, as is a range; a range without an index is left unresolved. Every answer
        has all the rows; a range always has them exactly, an equality if and only if no
        live row had this value overwritten since the last renumbering or rebuilding. */
    method Resolve(p: Predicate, deleted: seq<bool>) returns (r: Resolved)
      requires Valid() && p.attr < |schema|
      requires |deleted| == rows && forall i :: 0 <= i < rows ==> deleted[i] == !live[i]
      ensures r.Mismatch? <==> !Suits(columns[p.attr], p)
      ensures r.Unresolved? <==> Suits(columns[p.attr], p) && p.Range? && !schema[p.attr].indexed
      ensures r.Allow? ==> forall i :: 0 <= i < |r.ids| ==> r.ids[i] < rows && live[r.ids[i]]
      ensures r.Allow? ==> forall i: nat :: i < rows && live[i] && Holds(columns[p.attr], p, i) ==> i in r.ids
      ensures r.Allow? ==>
        (Answers(columns[p.attr], live, p, r.ids) <==> Untouched(columns[p.attr], live, trails[p.attr], p))
    {
      hide ColumnOK, Answers, Untouched, Filtered, Select, KeyOf, Holds;
      var c := columns[p.attr];
      assert FieldOK(schema[p.attr], c, live, trails[p.attr]);
      match p {
        case Eq(_, v) =>
          if !c.kind.KTag? && !c.kind.KBool? { return Mismatch; }
          if c.kind.KTag? != v.Tag? || c.kind.KBool? != v.Bool? { return Mismatch; }
          EqualityAnswers(c, live, trails[p.attr], p);
          var code := CodeOf(c, v);
          if code >= |c.postings| { return Allow([]); }
          var ids := Filter(c.postings[code], deleted, live);
          FilteredLive(c.postings[code], live);
          return Allow(ids);
        case Range(_, lo, hi) =>
          if !c.kind.KInt? && !c.kind.KFloat? { return Mismatch; }
          if c.kind.KInt? != lo.Int64? || c.kind.KFloat? != lo.Float64? { return Mismatch; }
          if c.kind.KInt? != hi.Int64? || c.kind.KFloat? != hi.Float64? { return Mismatch; }
          if c.index.None? { return Unresolved; }
          RangeAnswers(c, live, trails[p.attr], p);
          RangeUntouched(c, live, trails[p.attr], p);
          RangeComplete(c, live, p, Ids(Select(c.index.value, KeyOf(c.kind, lo.raw), KeyOf(c.kind, hi.raw))));
          return Allow(Ids(Select(c.index.value, KeyOf(c.kind, lo.raw), KeyOf(c.kind, hi.raw))));
      }
    }
  }
}
