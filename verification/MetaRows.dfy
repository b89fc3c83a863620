/** What becomes of a column when a row is appended, copied or overwritten, when the rows are
    renumbered, and when everything derived is rebuilt. */
module MetaRows {
  import opened Basics
  import opened TreeKeys
  import opened SortedPairs
  import W = WalRecords
  import opened MetaColumn

  // ----- interning -----

  // `intern_`: a new string gets the next code, no live rows and no postings.
  function Interned(c: Column, s: Str): Column {
    if s in c.dict then c
    else c.(dict := c.dict + [s], count := c.count + [0], postings := c.postings + [[]])
  }

  function InternedAll(c: Column, toks: seq<Str>): Column {
    if toks == [] then c else Interned(InternedAll(c, toks[..|toks| - 1]), toks[|toks| - 1])
  }

  predicate HasDict(c: Column) { c.kind.KTag? || c.kind.KText? }

  lemma InternRows(c: Column, s: Str, n: nat)
    requires ShapeOK(c, n) && HasDict(c)
    ensures var c' := Interned(c, s); ShapeOK(c', n) && s in c'.dict && c.dict <= c'.dict
    ensures forall id :: 0 <= id < n ==> Codes(Interned(c, s), id) == Codes(c, id)
  {
    var c' := Interned(c, s);
    assert s !in c.dict ==> c'.dict[|c.dict|] == s;
    forall id | 0 <= id < n ensures RowOK(c', id) {
      assert RowOK(c, id);
      if c.present[id] && c.kind.KText? && s !in c.dict { TermsStable(c.dict, [s], Tokenize(c.rawText[id])); }
    }
  }

  lemma {:induction false} SumZero(f: seq<nat>, live: seq<bool>)
    requires |f| == |live| && forall i :: 0 <= i < |f| ==> f[i] == 0
    ensures Sum(f, live) == 0
  {
    if f != [] { SumZero(f[..|f| - 1], live[..|f| - 1]); }
  }

  lemma InternCounts(c: Column, s: Str, live: seq<bool>)
    requires ShapeOK(c, |live|) && HasDict(c) && CountsOK(c, live) && ShapeOK(Interned(c, s), |live|)
    requires forall id :: 0 <= id < |live| ==> Codes(Interned(c, s), id) == Codes(c, id)
    ensures CountsOK(Interned(c, s), live)
  {
    hide Sum, RowOK;
    var c' := Interned(c, s);
    assert Docs(c') == Docs(c) && Lengths(c') == Lengths(c);
    forall k | 0 <= k < |c'.count| ensures c'.count[k] == Sum(Marks(c', k), live) {
      assert Marks(c', k) == Marks(c, k);
      if k == |c.count| {
        forall id | 0 <= id < |live| ensures k !in Codes(c, id) { CodesFacts(c, |live|, id); }
        SumZero(Marks(c, k), live);
      }
    }
  }

  lemma InternPostings(c: Column, s: Str, n: nat, tr: Trail)
    requires ShapeOK(c, n) && HasDict(c) && PostingsOK(c, tr) && ShapeOK(Interned(c, s), n)
    requires forall id :: 0 <= id < n ==> Codes(Interned(c, s), id) == Codes(c, id)
    ensures PostingsOK(Interned(c, s), tr)
  {
    hide RowOK;
    var c' := Interned(c, s);
    forall i: nat, k | 0 <= k < |c'.postings|
      ensures multiset(c'.postings[k])[i] ==
        (if i < n && tr.posted[i] && k in Codes(c', i) then 1 else 0) + tr.over[(i, k)]
    {
      if k == |c.postings| && i < n { CodesFacts(c, n, i); }
    }
  }

  lemma InternKeeps(c: Column, s: Str, live: seq<bool>, tr: Trail)
    requires ColumnOK(c, live, tr) && HasDict(c)
    ensures var c' := Interned(c, s);
      && ColumnOK(c', live, tr) && s in c'.dict && c.dict <= c'.dict
      && c'.kind == c.kind && c'.index == c.index && c'.present == c.present
  {
    hide CountsOK, PostingsOK, IndexOK, ShapeOK;
    var c' := Interned(c, s);
    InternRows(c, s, |live|);
    InternCounts(c, s, live);
    InternPostings(c, s, |live|, tr);
    NoIndex(c, |live|);
    NoIndexOK(c', live);
  }

  lemma NoIndex(c: Column, n: nat)
    requires ShapeOK(c, n) && HasDict(c)
    ensures c.index.None? && Sized(c, n) && Sized(Interned(c, []), n)
  {
  }

  lemma NoIndexOK(c: Column, live: seq<bool>)
    requires ShapeOK(c, |live|) && c.index.None?
    ensures IndexOK(c, live)
  {
  }

  lemma {:induction false} InternAllKeeps(c: Column, toks: seq<Str>, live: seq<bool>, tr: Trail)
    requires ColumnOK(c, live, tr) && HasDict(c)
    ensures var c' := InternedAll(c, toks);
      && ColumnOK(c', live, tr) && AllIn(toks, c'.dict) && c.dict <= c'.dict
      && c'.kind == c.kind && c'.index == c.index && c'.present == c.present
  {
    hide ColumnOK, Interned;
    if toks != [] {
      InternAllKeeps(c, toks[..|toks| - 1], live, tr);
      InternKeeps(InternedAll(c, toks[..|toks| - 1]), toks[|toks| - 1], live, tr);
    }
  }

  // ----- a value in a row -----

  // A value that a column of this kind takes, and a truth value keeps.
  predicate Accepts(kind: Kind, v: W.AttrValue) {
    match v
    case Null => true
    case Int64(_) => kind.KInt?
    case Float64(_) => kind.KFloat?
    case Bool(raw) => kind.KBool? && TruthValue(raw)
    case Tag(_) => kind.KTag?
    case Text(_) => kind.KText?
  }

  // The column once the strings of v have codes.
  function Ready(c: Column, v: W.AttrValue): Column {
    match v
    case Tag(t) => Interned(c, t)
    case Text(t) => InternedAll(c, Tokenize(t))
    case _ => c
  }

  // What v is stored as.
  datatype Cell = Cell(data: nat, present: bool, terms: seq<nat>, docLen: nat, rawText: Str)

  function CellOf(c: Column, v: W.AttrValue): Cell {
    match v
    case Null => Cell(0, false, [], 0, [])
    case Int64(raw) => Cell(raw, true, [], 0, [])
    case Float64(raw) => Cell(raw, true, [], 0, [])
    case Bool(raw) => Cell(raw, true, [], 0, [])
    case Tag(t) => Cell(IndexOf(c.dict, t), true, [], 0, [])
    case Text(t) => Cell(0, true, TermsOf(c.dict, Tokenize(t)), |Tokenize(t)|, t)
  }

  // A cell that fits the column.
  ghost predicate CellOK(c: Column, x: Cell) {
    x.present ==>
      match c.kind
      case KTag => x.data < |c.dict|
      case KBool => x.data < W.LONG_LIMIT && TruthValue(x.data)
      case KText =>
        && AllIn(Tokenize(x.rawText), c.dict)
        && x.terms == TermsOf(c.dict, Tokenize(x.rawText)) && x.docLen == |Tokenize(x.rawText)|
      case _ => x.data < W.LONG_LIMIT
  }

  lemma ReadyKeeps(c: Column, v: W.AttrValue, live: seq<bool>, tr: Trail)
    requires ColumnOK(c, live, tr) && Accepts(c.kind, v)
    ensures var c' := Ready(c, v);
      ColumnOK(c', live, tr) && c'.kind == c.kind && c'.present == c.present && CellOK(c', CellOf(c', v))
      && c'.index == c.index && c.dict <= c'.dict
  {
    hide ColumnOK, Interned, InternedAll;
    match v
    case Tag(t) => InternKeeps(c, t, live, tr);
    case Text(t) => InternAllKeeps(c, Tokenize(t), live, tr);
    case _ =>
  }

  // Text arrays grow with the rows of text columns only.
  function Extended(c: Column, x: Cell): Column {
    if c.kind.KText? then
      c.(data := c.data + [x.data], present := c.present + [x.present], terms := c.terms + [x.terms],
         docLen := c.docLen + [x.docLen], rawText := c.rawText + [x.rawText])
    else c.(data := c.data + [x.data], present := c.present + [x.present])
  }

  function Replaced(c: Column, id: nat, x: Cell): Column
    requires Sized(c, |c.present|) && id < |c.present|
  {
    if c.kind.KText? then
      c.(data := c.data[id := x.data], present := c.present[id := x.present], terms := c.terms[id := x.terms],
         docLen := c.docLen[id := x.docLen], rawText := c.rawText[id := x.rawText])
    else c.(data := c.data[id := x.data], present := c.present[id := x.present])
  }

  // `add_posting_`.
  function PostAll(postings: seq<seq<nat>>, codes: seq<nat>, id: nat): seq<seq<nat>> {
    if codes == [] then postings
    else
      var ps, k := PostAll(postings, codes[..|codes| - 1], id), codes[|codes| - 1];
      if k < |ps| then ps[k := ps[k] + [id]] else ps
  }

  function Posted(c: Column, id: nat): Column
    requires Sized(c, |c.present|) && id < |c.present|
  {
    c.(postings := PostAll(c.postings, Codes(c, id), id))
  }

  lemma {:induction false} PostAllAt(postings: seq<seq<nat>>, codes: seq<nat>, id: nat)
    requires Distinct(codes)
    ensures |PostAll(postings, codes, id)| == |postings|
    ensures forall k :: 0 <= k < |postings| ==>
      PostAll(postings, codes, id)[k] == (if k in codes then postings[k] + [id] else postings[k])
  {
    if codes != [] {
      var rest, last := codes[..|codes| - 1], codes[|codes| - 1];
      PostAllAt(postings, rest, id);
      assert codes == rest + [last];
      assert last !in rest;
    }
  }

  lemma PostCount(ps: seq<nat>, id: nat, i: nat)
    ensures multiset(ps + [id])[i] == multiset(ps)[i] + (if i == id then 1 else 0)
  {
    assert multiset(ps + [id]) == multiset(ps) + multiset{id};
  }

  // A row that was not posted is.
  lemma PostKeeps(c: Column, live: seq<bool>, tr: Trail, id: nat)
    requires ColumnOK(c, live, tr) && id < |live| && !tr.posted[id]
    ensures ColumnOK(Posted(c, id), live, tr.(posted := tr.posted[id := true])) && SameRows(c, Posted(c, id))
  {
    hide CountsOK, IndexOK, RowOK;
    var c' := Posted(c, id);
    CodesFacts(c, |live|, id);
    PostAllAt(c.postings, Codes(c, id), id);
    SameRowsRead(c, c');
    ShapeSame(c, c', |live|);
    CountsSame(c, c', live);
    IndexSame(c, c', live);
    PostedPostings(c, |live|, tr, id);
  }

  lemma PostedPostings(c: Column, n: nat, tr: Trail, id: nat)
    requires ShapeOK(c, n) && PostingsOK(c, tr) && id < n && !tr.posted[id]
    ensures PostingsOK(Posted(c, id), tr.(posted := tr.posted[id := true]))
  {
    hide RowOK, PostAll;
    var c', tr' := Posted(c, id), tr.(posted := tr.posted[id := true]);
    CodesFacts(c, n, id);
    PostAllAt(c.postings, Codes(c, id), id);
    forall i: nat, k | 0 <= k < |c'.postings|
      ensures multiset(c'.postings[k])[i] ==
        (if i < n && tr'.posted[i] && k in Codes(c', i) then 1 else 0) + tr.over[(i, k)]
    {
      PostCount(c.postings[k], id, i);
      if i < n { assert Codes(c', i) == Codes(c, i); }
    }
  }

  // ----- a new row -----

  lemma ExtendShape(c: Column, x: Cell, n: nat)
    requires ShapeOK(c, n) && CellOK(c, x)
    ensures var c' := Extended(c, x);
      ShapeOK(c', n + 1) && forall id :: 0 <= id < n ==> Codes(c', id) == Codes(c, id) && Entry(c', id) == Entry(c, id)
  {
    var c' := Extended(c, x);
    forall id | 0 <= id < n + 1 ensures RowOK(c', id) { if id < n { assert RowOK(c, id); } }
  }

  lemma ExtendCounts(c: Column, x: Cell, live: seq<bool>)
    requires ShapeOK(c, |live|) && CountsOK(c, live) && ShapeOK(Extended(c, x), |live| + 1)
    requires forall id :: 0 <= id < |live| ==> Codes(Extended(c, x), id) == Codes(c, id)
    ensures CountsOK(Extended(c, x), live + [false])
  {
    hide Sum, RowOK;
    var c', n := Extended(c, x), |live|;
    forall k | 0 <= k < |c'.count| ensures c'.count[k] == Sum(Marks(c', k), live + [false]) {
      assert Marks(c', k) == Marks(c, k) + [Marks(c', k)[n]];
      SumSnoc(Marks(c, k), live, Marks(c', k)[n], false);
    }
    assert Docs(c') == Docs(c) + [Docs(c')[n]] && Lengths(c') == Lengths(c) + [Lengths(c')[n]];
    SumSnoc(Docs(c), live, Docs(c')[n], false);
    SumSnoc(Lengths(c), live, Lengths(c')[n], false);
  }

  lemma ExtendIndex(c: Column, x: Cell, live: seq<bool>)
    requires ShapeOK(c, |live|) && IndexOK(c, live) && ShapeOK(Extended(c, x), |live| + 1)
    requires forall id :: 0 <= id < |live| ==> Entry(Extended(c, x), id) == Entry(c, id)
    ensures IndexOK(Extended(c, x), live + [false])
  {
    hide RowOK;
    var c', n := Extended(c, x), |live|;
    assert Entries(c') == Entries(c) + [Entry(c', n)];
    BagSnoc(Entries(c), live, Entry(c', n), false);
  }

  // A new row, neither live nor posted yet.
  lemma ExtendKeeps(c: Column, x: Cell, live: seq<bool>, tr: Trail)
    requires ColumnOK(c, live, tr) && CellOK(c, x)
    ensures ColumnOK(Extended(c, x), live + [false], tr.(posted := tr.posted + [false]))
  {
    hide CountsOK, IndexOK, RowOK, CellOK;
    var c' := Extended(c, x);
    ExtendShape(c, x, |live|);
    ExtendCounts(c, x, live);
    ExtendIndex(c, x, live);
  }

  // ----- an overwritten row -----

  function Pairs(id: nat, codes: seq<nat>): multiset<(nat, nat)> {
    multiset(seq(|codes|, i requires 0 <= i < |codes| => (id, codes[i])))
  }

  lemma PairsAt(id: nat, codes: seq<nat>, i: nat, k: nat)
    requires Distinct(codes)
    ensures Pairs(id, codes)[(i, k)] == (if i == id && k in codes then 1 else 0)
    decreases |codes|
  {
    var ps := seq(|codes|, j requires 0 <= j < |codes| => (id, codes[j]));
    if codes == [] {
      assert ps == [];
    } else {
      var rest, last := codes[..|codes| - 1], codes[|codes| - 1];
      PairsAt(id, rest, i, k);
      var qs := seq(|rest|, j requires 0 <= j < |rest| => (id, rest[j]));
      assert ps == qs + [(id, last)];
      assert multiset(ps) == multiset(qs) + multiset{(id, last)};
      assert codes == rest + [last];
      assert last !in rest;
    }
  }

  // What `set_row` leaves behind: the old codes of the row, if it was posted.
  function After(tr: Trail, id: nat, codes: seq<nat>): Trail
    requires id < |tr.posted|
  {
    Trail(tr.posted[id := false], if tr.posted[id] then tr.over + Pairs(id, codes) else tr.over)
  }

  lemma ReplaceShape(c: Column, id: nat, x: Cell, n: nat)
    requires ShapeOK(c, n) && CellOK(c, x) && id < n
    ensures var c' := Replaced(c, id, x);
      ShapeOK(c', n) && forall i :: 0 <= i < n && i != id ==> Codes(c', i) == Codes(c, i) && Entry(c', i) == Entry(c, i)
  {
    var c' := Replaced(c, id, x);
    forall i | 0 <= i < n ensures RowOK(c', i) { if i != id { assert RowOK(c, i); } }
  }

  lemma ReplacePostings(c: Column, id: nat, x: Cell, n: nat, tr: Trail)
    requires ShapeOK(c, n) && PostingsOK(c, tr) && id < n && ShapeOK(Replaced(c, id, x), n)
    requires forall i :: 0 <= i < n && i != id ==> Codes(Replaced(c, id, x), i) == Codes(c, i)
    ensures PostingsOK(Replaced(c, id, x), After(tr, id, Codes(c, id)))
  {
    hide RowOK;
    var c', tr' := Replaced(c, id, x), After(tr, id, Codes(c, id));
    CodesFacts(c, n, id);
    forall i: nat, k | 0 <= k < |c'.postings|
      ensures multiset(c'.postings[k])[i] ==
        (if i < n && tr'.posted[i] && k in Codes(c', i) then 1 else 0) + tr'.over[(i, k)]
    {
      PairsAt(id, Codes(c, id), i, k);
    }
    forall i: nat, k: nat | tr'.over[(i, k)] > 0 ensures k < |c'.postings| && i < n {
      PairsAt(id, Codes(c, id), i, k);
    }
  }

  lemma ReplaceCounts(c: Column, id: nat, x: Cell, live: seq<bool>)
    requires ShapeOK(c, |live|) && CountsOK(c, live) && id < |live| && !live[id] && ShapeOK(Replaced(c, id, x), |live|)
    requires forall i :: 0 <= i < |live| && i != id ==> Codes(Replaced(c, id, x), i) == Codes(c, i)
    ensures CountsOK(Replaced(c, id, x), live)
  {
    hide Sum, RowOK;
    var c' := Replaced(c, id, x);
    forall k | 0 <= k < |c'.count| ensures c'.count[k] == Sum(Marks(c', k), live) {
      SumDead(Marks(c', k), Marks(c, k), live);
    }
    SumDead(Docs(c'), Docs(c), live);
    SumDead(Lengths(c'), Lengths(c), live);
  }

  lemma ReplaceIndex(c: Column, id: nat, x: Cell, live: seq<bool>)
    requires ShapeOK(c, |live|) && IndexOK(c, live) && id < |live| && !live[id] && ShapeOK(Replaced(c, id, x), |live|)
    requires forall i :: 0 <= i < |live| && i != id ==> Entry(Replaced(c, id, x), i) == Entry(c, i)
    ensures IndexOK(Replaced(c, id, x), live)
  {
    hide RowOK;
    BagDead(Entries(Replaced(c, id, x)), Entries(c), live);
  }

  // A row that is not counted at the moment gets another value.
  lemma ReplaceKeeps(c: Column, id: nat, x: Cell, live: seq<bool>, tr: Trail)
    requires ColumnOK(c, live, tr) && CellOK(c, x) && id < |live| && !live[id]
    ensures ColumnOK(Replaced(c, id, x), live, After(tr, id, Codes(c, id)))
  {
    hide CountsOK, IndexOK, RowOK, CellOK, PostingsOK, After;
    ReplaceShape(c, id, x, |live|);
    ReplaceCounts(c, id, x, live);
    ReplaceIndex(c, id, x, live);
    ReplacePostings(c, id, x, |live|, tr);
  }

  // `set_row` on one column of a live row: no longer counted, overwritten, counted again,
  // and posted under its new codes.
  function SetCell(c: Column, id: nat, v: W.AttrValue): Column
    requires Sized(c, |c.present|) && id < |c.present|
  {
    var c1 := Ready(Turned(c, id, false), v);
    if Sized(c1, |c1.present|) && id < |c1.present| then
      Posted(Turned(Replaced(c1, id, CellOf(c1, v)), id, true), id)
    else c1
  }

  // The trail after `set_row`: what the row held before stays in the postings.
  function Overwritten(tr: Trail, id: nat, codes: seq<nat>): Trail
    requires id < |tr.posted|
  {
    Trail(tr.posted[id := true], if tr.posted[id] then tr.over + Pairs(id, codes) else tr.over)
  }

  lemma ColumnFacts(c: Column, live: seq<bool>, tr: Trail)
    requires ColumnOK(c, live, tr)
    ensures Sized(c, |live|) && |c.present| == |live| == |tr.posted|
  {
  }

  lemma ReadyCodes(c: Column, v: W.AttrValue, live: seq<bool>, tr: Trail, id: nat)
    requires ColumnOK(c, live, tr) && Accepts(c.kind, v) && id < |live| && ColumnOK(Ready(c, v), live, tr)
    ensures Codes(Ready(c, v), id) == Codes(c, id)
  {
    hide ColumnOK, RowOK, CountsOK, IndexOK, PostingsOK;
    ColumnFacts(c, live, tr);
    ColumnFacts(Ready(c, v), live, tr);
    match v
    case Tag(t) => InternSame(c, t);
    case Text(t) => InternAllSame(c, Tokenize(t));
    case _ =>
  }

  lemma InternSame(c: Column, s: Str)
    ensures var c' := Interned(c, s);
      c'.data == c.data && c'.present == c.present && c'.terms == c.terms && c'.kind == c.kind
      && c'.docLen == c.docLen && c'.rawText == c.rawText && c'.index == c.index
  {
  }

  lemma {:induction false} InternAllSame(c: Column, toks: seq<Str>)
    ensures var c' := InternedAll(c, toks);
      c'.data == c.data && c'.present == c.present && c'.terms == c.terms && c'.kind == c.kind
      && c'.docLen == c.docLen && c'.rawText == c.rawText && c'.index == c.index
  {
    hide Interned;
    if toks != [] {
      InternAllSame(c, toks[..|toks| - 1]);
      InternSame(InternedAll(c, toks[..|toks| - 1]), toks[|toks| - 1]);
    }
  }

  lemma SetKeeps(c: Column, id: nat, v: W.AttrValue, live: seq<bool>, tr: Trail)
    requires ColumnOK(c, live, tr) && Accepts(c.kind, v) && id < |live| && live[id]
    ensures ColumnOK(SetCell(c, id, v), live, Overwritten(tr, id, Codes(c, id)))
  {
    hide ColumnOK, Turned, Ready, Replaced, Posted, CellOf, CellOK, Codes, Pairs;
    ColumnFacts(c, live, tr);
    var off := live[id := false];
    TurnKeeps(c, live, tr, id, false);
    var c0 := Turned(c, id, false);
    SameRowsRead(c, c0);
    ReadyKeeps(c0, v, off, tr);
    ReadyCodes(c0, v, off, tr, id);
    var c1 := Ready(c0, v);
    ColumnFacts(c1, off, tr);
    ReplaceKeeps(c1, id, CellOf(c1, v), off, tr);
    var c2, tr2 := Replaced(c1, id, CellOf(c1, v)), After(tr, id, Codes(c, id));
    ColumnFacts(c2, off, tr2);
    TurnKeeps(c2, off, tr2, id, true);
    assert off[id := true] == live;
    var c3 := Turned(c2, id, true);
    ColumnFacts(c3, live, tr2);
    PostKeeps(c3, live, tr2, id);
    assert tr2.posted[id := true] == tr.posted[id := true];
  }

  // `append_row` on one column, and `append_row_copy`.
  function AppendCell(c: Column, v: W.AttrValue): Column
    requires Sized(c, |c.present|)
  {
    var c1 := Ready(c, v);
    var c2 := Extended(c1, CellOf(c1, v));
    if Sized(c2, |c2.present|) && |c.present| < |c2.present| then Posted(c2, |c.present|) else c2
  }

  lemma AppendKeeps(c: Column, v: W.AttrValue, live: seq<bool>, tr: Trail)
    requires ColumnOK(c, live, tr) && Accepts(c.kind, v)
    ensures ColumnOK(AppendCell(c, v), live + [false], Trail(tr.posted + [true], tr.over))
  {
    hide ColumnOK, Ready, Extended, Posted, CellOf, CellOK, Codes;
    ColumnFacts(c, live, tr);
    ReadyKeeps(c, v, live, tr);
    var c1 := Ready(c, v);
    ExtendKeeps(c1, CellOf(c1, v), live, tr);
    var c2, tr2 := Extended(c1, CellOf(c1, v)), tr.(posted := tr.posted + [false]);
    ColumnFacts(c2, live + [false], tr2);
    PostKeeps(c2, live + [false], tr2, |live|);
    assert tr2.posted[|live| := true] == tr.posted + [true];
  }

  function CellAt(c: Column, id: nat): Cell
    requires Sized(c, |c.present|) && id < |c.present|
  {
    if c.kind.KText? then Cell(c.data[id], c.present[id], c.terms[id], c.docLen[id], c.rawText[id])
    else Cell(c.data[id], c.present[id], [], 0, [])
  }

  function CopyCell(c: Column, src: nat): Column
    requires Sized(c, |c.present|) && src < |c.present|
  {
    var c2 := Extended(c, CellAt(c, src));
    if Sized(c2, |c2.present|) && |c.present| < |c2.present| then Posted(c2, |c.present|) else c2
  }

  lemma CopyKeeps(c: Column, src: nat, live: seq<bool>, tr: Trail)
    requires ColumnOK(c, live, tr) && src < |live|
    ensures ColumnOK(CopyCell(c, src), live + [false], Trail(tr.posted + [true], tr.over))
  {
    hide CountsOK, IndexOK, PostingsOK, Extended, Posted, Codes;
    assert RowOK(c, src);
    ExtendKeeps(c, CellAt(c, src), live, tr);
    var c2, tr2 := Extended(c, CellAt(c, src)), tr.(posted := tr.posted + [false]);
    ColumnFacts(c2, live + [false], tr2);
    PostKeeps(c2, live + [false], tr2, |live|);
    assert tr2.posted[|live| := true] == tr.posted + [true];
  }

  // ----- rebuilding what is derived -----

  function Zeros(n: nat): (z: seq<nat>)
    ensures |z| == n && forall i :: 0 <= i < n ==> z[i] == 0
  {
    seq(n, _ => 0)
  }

  function Falses(n: nat): (z: seq<bool>)
    ensures |z| == n && forall i :: 0 <= i < n ==> !z[i]
  {
    seq(n, _ => false)
  }

  function Nones(n: nat): (z: seq<seq<nat>>)
    ensures |z| == n && forall i :: 0 <= i < n ==> z[i] == []
  {
    seq(n, _ => [])
  }

  // Counters at zero, postings and index empty.
  function Cleared(c: Column): Column {
    c.(count := Zeros(|c.count|), postings := Nones(|c.postings|), liveDocs := 0, totalLen := 0,
       index := if c.index.Some? then Some([]) else None)
  }

  lemma {:induction false} SumNobody(f: seq<nat>, live: seq<bool>)
    requires |f| == |live| && forall i :: 0 <= i < |live| ==> !live[i]
    ensures Sum(f, live) == 0
  {
    if f != [] { SumNobody(f[..|f| - 1], live[..|f| - 1]); }
  }

  lemma {:induction false} BagNobody(es: seq<Option<Pair>>, live: seq<bool>)
    requires |es| == |live| && forall i :: 0 <= i < |live| ==> !live[i]
    ensures Bag(es, live) == multiset{}
  {
    if es != [] { BagNobody(es[..|es| - 1], live[..|es| - 1]); }
  }

  lemma ClearKeeps(c: Column, n: nat)
    requires ShapeOK(c, n)
    ensures ColumnOK(Cleared(c), Falses(n), Trail(Falses(n), multiset{})) && SameRows(c, Cleared(c))
  {
    hide RowOK, Sum, Bag;
    var c' := Cleared(c);
    ShapeSame(c, c', n);
    forall k | 0 <= k < |c'.count| ensures c'.count[k] == Sum(Marks(c', k), Falses(n)) {
      SumNobody(Marks(c', k), Falses(n));
    }
    SumNobody(Docs(c'), Falses(n));
    SumNobody(Lengths(c'), Falses(n));
    BagNobody(Entries(c'), Falses(n));
  }

  // One live row of the rebuilding loop.
  function Readded(c: Column, id: nat): Column
    requires Sized(c, |c.present|) && id < |c.present|
  {
    var c1 := Turned(c, id, true);
    if Sized(c1, |c1.present|) && id < |c1.present| then Posted(c1, id) else c1
  }

  lemma ReaddKeeps(c: Column, id: nat, live: seq<bool>, tr: Trail)
    requires ColumnOK(c, live, tr) && id < |live| && !live[id] && !tr.posted[id]
    ensures ColumnOK(Readded(c, id), live[id := true], tr.(posted := tr.posted[id := true]))
    ensures SameRows(c, Readded(c, id))
  {
    hide ColumnOK, Turned, Posted;
    ColumnFacts(c, live, tr);
    TurnKeeps(c, live, tr, id, true);
    ColumnFacts(Turned(c, id, true), live[id := true], tr);
    PostKeeps(Turned(c, id, true), live[id := true], tr, id);
  }
}
