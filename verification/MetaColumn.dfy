/** One attribute column: its values by row, and what is derived from them. Live counts, the
    ordered index and the postings are kept up to date step by step; here each step is a
    function, and the proof that it keeps what it should. */
module MetaColumn {
  import opened Basics
  import opened TreeKeys
  import opened SortedPairs
  import opened SortableBits
  import W = WalRecords

  type Str = seq<W.Byte>

  datatype Kind = KInt | KFloat | KBool | KTag | KText

  /** A column by row: `data` holds a number, a truth value or a dictionary code; a text row
      has its string, its distinct term codes and its number of tokens instead. The
      source's `codes` map is the inverse of `dict` and is read through it. `index` is the
      contents of the column's B+-tree, in tree order. */
  datatype Column = Column(
    kind: Kind, data: seq<nat>, present: seq<bool>,
    terms: seq<seq<nat>>, docLen: seq<nat>, rawText: seq<Str>,
    dict: seq<Str>, count: seq<nat>, postings: seq<seq<nat>>,
    liveDocs: nat, totalLen: nat, index: Option<seq<Pair>>)

  // ----- tokens -----

  predicate Alnum(b: W.Byte) { 48 <= b <= 57 || 65 <= b <= 90 || 97 <= b <= 122 }
  function Lower(b: W.Byte): W.Byte { if 65 <= b <= 90 then b + 32 else b }

  // `tokenize_text`: the finished tokens, and the one still being read.
  function TokensOf(s: Str): (seq<Str>, Str) {
    if s == [] then ([], [])
    else
      var (out, cur) := TokensOf(s[..|s| - 1]);
      var b := s[|s| - 1];
      if Alnum(b) then (out, cur + [Lower(b)]) else if cur != [] then (out + [cur], []) else (out, cur)
  }

  function Tokenize(s: Str): seq<Str> {
    var (out, cur) := TokensOf(s);
    if cur != [] then out + [cur] else out
  }

  // ----- term codes -----

  // The distinct codes of some tokens, in order of first occurrence.
  function TermsOf(dict: seq<Str>, toks: seq<Str>): seq<nat> {
    if toks == [] then []
    else
      var before, code := TermsOf(dict, toks[..|toks| - 1]), IndexOf(dict, toks[|toks| - 1]);
      if code in before then before else before + [code]
  }

  ghost predicate AllIn(toks: seq<Str>, dict: seq<Str>) { forall i :: 0 <= i < |toks| ==> toks[i] in dict }

  lemma {:induction false} TermsFacts(dict: seq<Str>, toks: seq<Str>)
    requires AllIn(toks, dict)
    ensures var t := TermsOf(dict, toks); Distinct(t) && forall i :: 0 <= i < |t| ==> t[i] < |dict|
  {
    if toks != [] {
      assert toks[|toks| - 1] in dict;
      TermsFacts(dict, toks[..|toks| - 1]);
    }
  }

  // Codes keep their meaning when the dictionary grows.
  lemma {:induction false} TermsStable(dict: seq<Str>, more: seq<Str>, toks: seq<Str>)
    requires AllIn(toks, dict)
    ensures TermsOf(dict + more, toks) == TermsOf(dict, toks)
  {
    if toks != [] {
      assert toks[|toks| - 1] in dict;
      IndexStable(dict, more, toks[|toks| - 1]);
      TermsStable(dict, more, toks[..|toks| - 1]);
    }
  }

  lemma IndexStable(dict: seq<Str>, more: seq<Str>, s: Str)
    requires s in dict
    ensures IndexOf(dict + more, s) == IndexOf(dict, s)
  {
    var i := IndexOf(dict, s);
    assert (dict + more)[i] == s;
    forall j | 0 <= j < i ensures (dict + more)[j] != s {}
  }

  // ----- sums over the live rows -----

  function Sum(f: seq<nat>, live: seq<bool>): nat
    requires |f| == |live|
  {
    if f == [] then 0
    else Sum(f[..|f| - 1], live[..|f| - 1]) + (if live[|f| - 1] then f[|f| - 1] else 0)
  }

  // Raising one row changes the sum by that row; what a dead row holds does not matter.
  lemma {:induction false} SumFlip(f: seq<nat>, live: seq<bool>, id: nat)
    requires |f| == |live| && id < |f|
    ensures Sum(f, live[id := true]) == Sum(f, live[id := false]) + f[id]
  {
    var n := |f| - 1;
    if id == n {
      assert live[id := true][..n] == live[..n] && live[id := false][..n] == live[..n];
    } else {
      SumFlip(f[..n], live[..n], id);
      assert live[id := true][..n] == live[..n][id := true];
      assert live[id := false][..n] == live[..n][id := false];
    }
  }

  lemma {:induction false} SumDead(f: seq<nat>, g: seq<nat>, live: seq<bool>)
    requires |f| == |g| == |live| && forall i :: 0 <= i < |f| && live[i] ==> f[i] == g[i]
    ensures Sum(f, live) == Sum(g, live)
  {
    if f != [] { SumDead(f[..|f| - 1], g[..|g| - 1], live[..|f| - 1]); }
  }

  lemma SumSnoc(f: seq<nat>, live: seq<bool>, x: nat, b: bool)
    requires |f| == |live|
    ensures Sum(f + [x], live + [b]) == Sum(f, live) + (if b then x else 0)
  {
    assert (f + [x])[..|f|] == f && (live + [b])[..|f|] == live;
  }

  // ----- the pairs of the live rows -----

  function Bag(es: seq<Option<Pair>>, live: seq<bool>): multiset<Pair>
    requires |es| == |live|
  {
    if es == [] then multiset{}
    else Bag(es[..|es| - 1], live[..|es| - 1]) + One(es[|es| - 1], live[|es| - 1])
  }

  function One(e: Option<Pair>, live: bool): multiset<Pair> {
    if live && e.Some? then multiset{e.value} else multiset{}
  }

  lemma NotOne(e: Option<Pair>)
    ensures One(e, false) == multiset{}
  {
  }

  lemma {:induction false} BagFlip(es: seq<Option<Pair>>, live: seq<bool>, id: nat)
    requires |es| == |live| && id < |es|
    ensures Bag(es, live[id := true]) == Bag(es, live[id := false]) + One(es[id], true)
  {
    hide One;
    var n := |es| - 1;
    if id == n {
      assert live[id := true][..n] == live[..n] && live[id := false][..n] == live[..n];
      NotOne(es[n]);
    } else {
      BagFlip(es[..n], live[..n], id);
      assert live[id := true][..n] == live[..n][id := true];
      assert live[id := false][..n] == live[..n][id := false];
    }
  }

  lemma {:induction false} BagDead(es: seq<Option<Pair>>, fs: seq<Option<Pair>>, live: seq<bool>)
    requires |es| == |fs| == |live| && forall i :: 0 <= i < |es| && live[i] ==> es[i] == fs[i]
    ensures Bag(es, live) == Bag(fs, live)
  {
    if es != [] { BagDead(es[..|es| - 1], fs[..|fs| - 1], live[..|es| - 1]); }
  }

  lemma BagSnoc(es: seq<Option<Pair>>, live: seq<bool>, e: Option<Pair>, b: bool)
    requires |es| == |live|
    ensures Bag(es + [e], live + [b]) == Bag(es, live) + One(e, b)
  {
    assert (es + [e])[..|es|] == es && (live + [b])[..|es|] == live;
  }

  // ----- what a row contributes -----

  // The code that a stored number stands for: `static_cast<uint32_t>`, which for a truth
  // value cuts off the upper half.
  function CodeAt(kind: Kind, raw: nat): nat { if kind.KBool? then raw % W.WORD_LIMIT else raw }

  // Such a truth value counts under the code that its reading asks for; see TruthIff.
  predicate TruthValue(raw: nat) { raw == 0 || raw % W.WORD_LIMIT == 1 }

  // The codes a row counts for.
  function Codes(c: Column, id: nat): seq<nat>
    requires id < |c.present| == |c.data| && (c.kind.KText? ==> |c.terms| == |c.present|)
  {
    if !c.present[id] then []
    else if c.kind.KText? then c.terms[id]
    else if c.kind.KTag? || c.kind.KBool? then [CodeAt(c.kind, c.data[id])]
    else []
  }

  // `sortable_key_`. A stored number fits 64 bits.
  function KeyOf(kind: Kind, raw: nat): Key {
    if raw >= W.LONG_LIMIT then 0 else if kind.KInt? then SortableInt(raw) else SortableDouble(raw)
  }

  // The pair a row has in the index.
  function Entry(c: Column, id: nat): Option<Pair>
    requires id < |c.present| == |c.data|
  {
    if c.index.None? || !c.present[id] then None else Some((KeyOf(c.kind, c.data[id]), id))
  }

  predicate Sized(c: Column, n: nat) {
    && |c.data| == |c.present| == n
    && (c.kind.KText? ==> |c.terms| == |c.docLen| == |c.rawText| == n)
  }

  function Marks(c: Column, k: nat): seq<nat>
    requires Sized(c, |c.present|)
  {
    seq(|c.present|, id requires 0 <= id < |c.present| => if k in Codes(c, id) then 1 else 0)
  }

  function Docs(c: Column): seq<nat> {
    seq(|c.present|, id requires 0 <= id < |c.present| => if c.kind.KText? && c.present[id] then 1 else 0)
  }

  function Lengths(c: Column): seq<nat>
    requires Sized(c, |c.present|)
  {
    seq(|c.present|, id requires 0 <= id < |c.present| => if c.kind.KText? && c.present[id] then c.docLen[id] else 0)
  }

  function Entries(c: Column): seq<Option<Pair>>
    requires Sized(c, |c.present|)
  {
    seq(|c.present|, id requires 0 <= id < |c.present| => Entry(c, id))
  }

  // How many codes a column can count.
  function Width(c: Column): nat {
    if c.kind.KTag? || c.kind.KText? then |c.dict| else if c.kind.KBool? then 2 else 0
  }

  // ----- what holds of a column -----

  // Row id is stored as its kind asks.
  ghost predicate RowOK(c: Column, id: nat)
    requires Sized(c, |c.present|) && id < |c.present|
  {
    c.present[id] ==>
      match c.kind
      case KTag => c.data[id] < |c.dict|
      case KBool => c.data[id] < W.LONG_LIMIT && TruthValue(c.data[id])
      case KText =>
        && AllIn(Tokenize(c.rawText[id]), c.dict)
        && c.terms[id] == TermsOf(c.dict, Tokenize(c.rawText[id])) && c.docLen[id] == |Tokenize(c.rawText[id])|
      case _ => c.data[id] < W.LONG_LIMIT
  }

  ghost predicate ShapeOK(c: Column, n: nat) {
    && Sized(c, n) && Distinct(c.dict) && |c.count| == |c.postings| == Width(c)
    && (c.index.Some? ==> c.kind.KInt? || c.kind.KFloat?)
    && forall id :: 0 <= id < n ==> RowOK(c, id)
  }

  // The counters equal what a scan of the live rows gives.
  ghost predicate CountsOK(c: Column, live: seq<bool>)
    requires Sized(c, |live|)
  {
    && (forall k :: 0 <= k < |c.count| ==> c.count[k] == Sum(Marks(c, k), live))
    && c.liveDocs == Sum(Docs(c), live) && c.totalLen == Sum(Lengths(c), live)
  }

  // So does the index, which is sorted.
  ghost predicate IndexOK(c: Column, live: seq<bool>)
    requires Sized(c, |live|)
  {
    c.index.Some? ==> InOrder(c.index.value) && multiset(c.index.value) == Bag(Entries(c), live)
  }

  /** Which rows were posted since the postings were last built, and how often a code of a
      row was overwritten by `set_row` since then. */
  datatype Trail = Trail(posted: seq<bool>, over: multiset<(nat, nat)>)

  // Postings: each posted row once under each of its codes, and once more for each time
  // that a `set_row` overwrote that code of it.
  ghost predicate PostingsOK(c: Column, tr: Trail)
    requires Sized(c, |c.present|)
  {
    && |tr.posted| == |c.present|
    && (forall i: nat, k :: 0 <= k < |c.postings| ==>
         multiset(c.postings[k])[i] ==
           (if i < |c.present| && tr.posted[i] && k in Codes(c, i) then 1 else 0) + tr.over[(i, k)])
    && forall i: nat, k: nat :: tr.over[(i, k)] > 0 ==> k < |c.postings| && i < |c.present|
  }

  ghost predicate ColumnOK(c: Column, live: seq<bool>, tr: Trail) {
    ShapeOK(c, |live|) && CountsOK(c, live) && IndexOK(c, live) && PostingsOK(c, tr)
  }

  lemma CodesFacts(c: Column, n: nat, id: nat)
    requires ShapeOK(c, n) && id < n
    ensures Distinct(Codes(c, id)) && forall i :: 0 <= i < |Codes(c, id)| ==> Codes(c, id)[i] < |c.count|
  {
    assert RowOK(c, id);
    if c.present[id] && c.kind.KText? { TermsFacts(c.dict, Tokenize(c.rawText[id])); }
  }

  // ----- counting and indexing a row, or no longer -----

  function Bump(count: seq<nat>, code: nat, up: bool): seq<nat> {
    if code >= |count| then count
    else count[code := if up then count[code] + 1 else if count[code] > 0 then count[code] - 1 else 0]
  }

  function BumpAll(count: seq<nat>, codes: seq<nat>, up: bool): seq<nat> {
    if codes == [] then count else Bump(BumpAll(count, codes[..|codes| - 1], up), codes[|codes| - 1], up)
  }

  lemma {:induction false} BumpAllAt(count: seq<nat>, codes: seq<nat>, up: bool)
    requires Distinct(codes) && forall i :: 0 <= i < |codes| ==> codes[i] < |count|
    requires !up ==> forall i :: 0 <= i < |codes| ==> count[codes[i]] > 0
    ensures |BumpAll(count, codes, up)| == |count|
    ensures forall k :: 0 <= k < |count| ==>
      BumpAll(count, codes, up)[k] == (if k !in codes then count[k] else if up then count[k] + 1 else count[k] - 1)
  {
    if codes != [] {
      var rest, last := codes[..|codes| - 1], codes[|codes| - 1];
      BumpAllAt(count, rest, up);
      assert codes == rest + [last];
      assert last !in rest;
    }
  }

  function Shifted(n: nat, d: nat, up: bool): nat { if up then n + d else if n >= d then n - d else 0 }

  // `adjust_count_`.
  function Counted(c: Column, id: nat, up: bool): Column
    requires Sized(c, |c.present|) && id < |c.present|
  {
    if !c.present[id] then c
    else if c.kind.KText? then
      c.(count := BumpAll(c.count, c.terms[id], up), liveDocs := Shifted(c.liveDocs, 1, up),
         totalLen := Shifted(c.totalLen, c.docLen[id], up))
    else if c.kind.KTag? || c.kind.KBool? then c.(count := Bump(c.count, CodeAt(c.kind, c.data[id]), up))
    else c
  }

  // `adjust_index_`.
  function Indexed(c: Column, id: nat, up: bool): Column
    requires Sized(c, |c.present|) && id < |c.present|
  {
    var e := Entry(c, id);
    if e.None? then c
    else if up then c.(index := Some(Added(c.index.value, e.value.0, e.value.1)))
    else c.(index := Some(Dropped(c.index.value, e.value)))
  }

  function Turned(c: Column, id: nat, up: bool): Column
    requires Sized(c, |c.present|) && id < |c.present|
  {
    Indexed(Counted(c, id, up), id, up)
  }

  // Columns that agree on what their rows hold.
  ghost predicate SameRows(c: Column, c': Column) {
    && c'.kind == c.kind && c'.data == c.data && c'.present == c.present && c'.terms == c.terms
    && c'.docLen == c.docLen && c'.rawText == c.rawText && c'.dict == c.dict && (c'.index.Some? <==> c.index.Some?)
  }

  lemma SameRowsRead(c: Column, c': Column)
    requires SameRows(c, c') && Sized(c, |c.present|)
    ensures Docs(c') == Docs(c) && Lengths(c') == Lengths(c) && Entries(c') == Entries(c)
    ensures forall k :: Marks(c', k) == Marks(c, k)
    ensures forall i :: 0 <= i < |c.present| ==> Codes(c', i) == Codes(c, i) && Entry(c', i) == Entry(c, i)
  {
  }

  lemma BumpIsBumpAll(count: seq<nat>, code: nat, up: bool)
    ensures BumpAll(count, [code], up) == Bump(count, code, up)
  {
    assert [code][..0] == [];
  }

  // What counting changes, in terms of what the row contributes.
  lemma CountedIs(c: Column, n: nat, id: nat, up: bool)
    requires ShapeOK(c, n) && id < n
    ensures var c' := Counted(c, id, up);
      && SameRows(c, c') && c'.postings == c.postings && c'.index == c.index
      && c'.count == BumpAll(c.count, Codes(c, id), up)
      && c'.liveDocs == Shifted(c.liveDocs, Docs(c)[id], up) && c'.totalLen == Shifted(c.totalLen, Lengths(c)[id], up)
  {
    hide RowOK;
    if c.present[id] && (c.kind.KTag? || c.kind.KBool?) {
      BumpIsBumpAll(c.count, CodeAt(c.kind, c.data[id]), up);
    }
  }

  // A row becomes live: it is counted.
  lemma CountUp(c: Column, live: seq<bool>, id: nat)
    requires ShapeOK(c, |live|) && CountsOK(c, live) && id < |live| && !live[id]
    ensures var c' := Counted(c, id, true);
      SameRows(c, c') && c'.postings == c.postings && c'.index == c.index && |c'.count| == |c.count|
      && CountsOK(c', live[id := true])
  {
    hide Counted, RowOK, Sum;
    var c' := Counted(c, id, true);
    CodesFacts(c, |live|, id);
    CountedIs(c, |live|, id, true);
    BumpAllAt(c.count, Codes(c, id), true);
    SameRowsRead(c, c');
    assert live[id := false] == live;
    forall k | 0 <= k < |c.count| ensures c'.count[k] == Sum(Marks(c', k), live[id := true]) {
      SumFlip(Marks(c, k), live, id);
    }
    SumFlip(Docs(c), live, id);
    SumFlip(Lengths(c), live, id);
  }

  // No counter of a live row's codes is at zero.
  lemma NoneAtZero(c: Column, live: seq<bool>, id: nat)
    requires ShapeOK(c, |live|) && CountsOK(c, live) && id < |live| && live[id]
    ensures forall i :: 0 <= i < |Codes(c, id)| ==> Codes(c, id)[i] < |c.count| && c.count[Codes(c, id)[i]] > 0
  {
    hide ShapeOK, Sum;
    CodesFacts(c, |live|, id);
    ShapeWidth(c, |live|);
    assert live[id := true] == live;
    forall i | 0 <= i < |Codes(c, id)| ensures c.count[Codes(c, id)[i]] > 0 {
      var k := Codes(c, id)[i];
      assert Marks(c, k)[id] == 1;
      SumFlip(Marks(c, k), live, id);
    }
  }

  // A row stops being live: it is no longer counted.
  lemma CountDown(c: Column, live: seq<bool>, id: nat)
    requires ShapeOK(c, |live|) && CountsOK(c, live) && id < |live| && live[id]
    ensures var c' := Counted(c, id, false);
      SameRows(c, c') && c'.postings == c.postings && c'.index == c.index && |c'.count| == |c.count|
      && CountsOK(c', live[id := false])
  {
    hide Counted, RowOK, Sum;
    var c' := Counted(c, id, false);
    CodesFacts(c, |live|, id);
    NoneAtZero(c, live, id);
    CountedIs(c, |live|, id, false);
    BumpAllAt(c.count, Codes(c, id), false);
    SameRowsRead(c, c');
    assert live[id := true] == live;
    forall k | 0 <= k < |c.count| ensures c'.count[k] == Sum(Marks(c', k), live[id := false]) {
      SumFlip(Marks(c, k), live, id);
    }
    SumFlip(Docs(c), live, id);
    SumFlip(Lengths(c), live, id);
  }

  lemma IndexTurns(c: Column, live: seq<bool>, id: nat, up: bool)
    requires Sized(c, |live|) && IndexOK(c, live) && id < |live| && live[id] != up
    ensures var c' := Indexed(c, id, up); SameRows(c, c') && IndexOK(c', live[id := up])
  {
    hide Added, Dropped, InOrder, Bag;
    var c' := Indexed(c, id, up);
    BagFlip(Entries(c), live, id);
    assert live[id := live[id]] == live;
    SameRowsRead(c, c');
    if c.index.Some? {
      var e := Entry(c, id);
      if e.Some? { PairTurns(c.index.value, e.value, Bag(Entries(c), live[id := false]), up); }
    }
  }

  lemma PairTurns(es: seq<Pair>, e: Pair, rest: multiset<Pair>, up: bool)
    requires InOrder(es) && multiset(es) == (if up then rest else rest + multiset{e})
    ensures up ==> InOrder(Added(es, e.0, e.1)) && multiset(Added(es, e.0, e.1)) == rest + multiset{e}
    ensures !up ==> InOrder(Dropped(es, e)) && multiset(Dropped(es, e)) == rest
  {
    hide Added, Dropped, InOrder;
    if up {
      AddedInOrder(es, e.0, e.1);
      AddedMultiset(es, e.0, e.1);
    } else {
      DroppedInOrder(es, e);
      DroppedMultiset(es, e);
    }
  }

  lemma ShapeSame(c: Column, c': Column, n: nat)
    requires ShapeOK(c, n) && SameRows(c, c') && |c'.count| == |c'.postings| == |c.count|
    ensures ShapeOK(c', n)
  {
    forall id | 0 <= id < n ensures RowOK(c', id) { assert RowOK(c, id); }
  }

  // A row turns live or dead: every counter and the index follow.
  lemma TurnKeeps(c: Column, live: seq<bool>, tr: Trail, id: nat, up: bool)
    requires ColumnOK(c, live, tr) && id < |live| && live[id] != up
    ensures ColumnOK(Turned(c, id, up), live[id := up], tr) && SameRows(c, Turned(c, id, up))
    ensures Turned(c, id, up).postings == c.postings
  {
    hide CountsOK, IndexOK, ShapeOK, Counted, Indexed, PostingsOK;
    ShapeWidth(c, |live|);
    var c1 := Counted(c, id, up);
    if up { CountUp(c, live, id); } else { CountDown(c, live, id); }
    IndexSame(c, c1, live);
    IndexTurns(c1, live, id, up);
    var c2 := Turned(c, id, up);
    IndexedKeeps(c1, id, up);
    CountsSame(c1, c2, live[id := up]);
    ShapeSame(c, c2, |live|);
    PostingsSame(c, c2, tr);
  }

  lemma ShapeWidth(c: Column, n: nat)
    requires ShapeOK(c, n)
    ensures |c.postings| == |c.count| && Sized(c, n)
  {
  }

  lemma IndexedKeeps(c: Column, id: nat, up: bool)
    requires Sized(c, |c.present|) && id < |c.present|
    ensures var c' := Indexed(c, id, up);
      c'.count == c.count && c'.postings == c.postings && c'.liveDocs == c.liveDocs && c'.totalLen == c.totalLen
  {
  }

  lemma IndexSame(c: Column, c': Column, live: seq<bool>)
    requires Sized(c, |live|) && SameRows(c, c') && c'.index == c.index && IndexOK(c, live)
    ensures IndexOK(c', live)
  {
    SameRowsRead(c, c');
  }

  lemma CountsSame(c: Column, c': Column, live: seq<bool>)
    requires Sized(c, |live|) && SameRows(c, c') && CountsOK(c, live)
    requires c'.count == c.count && c'.liveDocs == c.liveDocs && c'.totalLen == c.totalLen
    ensures CountsOK(c', live)
  {
    SameRowsRead(c, c');
  }

  lemma PostingsSame(c: Column, c': Column, tr: Trail)
    requires Sized(c, |c.present|) && SameRows(c, c') && c'.postings == c.postings && PostingsOK(c, tr)
    ensures PostingsOK(c', tr)
  {
    SameRowsRead(c, c');
  }
}
