/** Renumbering the rows of a column, reading values back, and resolving a predicate to the
    rows that match it. */
module MetaResolve {
  import opened Basics
  import opened TreeKeys
  import opened SortedPairs
  import opened SortableBits
  import W = WalRecords
  import opened MetaColumn
  import opened MetaRows

  // ----- the live rows in order -----

  function LiveIds(live: seq<bool>): seq<nat> {
    if live == [] then []
    else if live[|live| - 1] then LiveIds(live[..|live| - 1]) + [|live| - 1]
    else LiveIds(live[..|live| - 1])
  }

  lemma {:induction false} LiveIdsFacts(live: seq<bool>)
    ensures forall i :: 0 <= i < |LiveIds(live)| ==> LiveIds(live)[i] < |live| && live[LiveIds(live)[i]]
    ensures forall i, j :: 0 <= i < j < |LiveIds(live)| ==> LiveIds(live)[i] < LiveIds(live)[j]
    ensures forall id :: 0 <= id < |live| && live[id] ==> id in LiveIds(live)
  {
    if live != [] {
      var n := |live| - 1;
      var rest := LiveIds(live[..n]);
      LiveIdsFacts(live[..n]);
      assert forall id :: 0 <= id < n && live[id] ==> live[..n][id] && id in rest;
      assert LiveIds(live) == if live[n] then rest + [n] else rest;
    }
  }

  lemma {:induction false} LiveIdsFlip(live: seq<bool>, id: nat)
    requires id < |live|
    ensures |LiveIds(live[id := true])| == |LiveIds(live[id := false])| + 1
  {
    var n := |live| - 1;
    if id == n {
      assert live[id := true][..n] == live[..n] && live[id := false][..n] == live[..n];
    } else {
      LiveIdsFlip(live[..n], id);
      assert live[id := true][..n] == live[..n][id := true];
      assert live[id := false][..n] == live[..n][id := false];
    }
  }

  lemma {:induction false} LiveIdsBound(live: seq<bool>)
    ensures |LiveIds(live)| <= |live|
  {
    if live != [] { LiveIdsBound(live[..|live| - 1]); }
  }

  lemma LiveIdsSnoc(live: seq<bool>, b: bool)
    ensures LiveIds(live + [b]) == LiveIds(live) + (if b then [|live|] else [])
  {
    assert (live + [b])[..|live|] == live;
  }

  lemma {:induction false} LiveIdsAll(m: nat)
    ensures LiveIds(First(m, m)) == seq(m, i => i)
  {
    if m > 0 {
      LiveIdsAll(m - 1);
      assert First(m, m)[..m - 1] == First(m - 1, m - 1);
      assert seq(m, i => i) == seq(m - 1, i => i) + [m - 1];
    }
  }

  function Pick<T>(s: seq<T>, ids: seq<nat>): (r: seq<T>)
    requires forall i :: 0 <= i < |ids| ==> ids[i] < |s|
    ensures |r| == |ids| && forall i :: 0 <= i < |ids| ==> r[i] == s[ids[i]]
  {
    seq(|ids|, i requires 0 <= i < |ids| => s[ids[i]])
  }

  // The first i of m rows.
  function First(i: nat, m: nat): (b: seq<bool>)
    ensures |b| == m && forall j :: 0 <= j < m ==> b[j] == (j < i)
  {
    seq(m, j => j < i)
  }

  // Dropping the dead rows does not change a sum over the live ones.
  lemma {:induction false} SumPick(f: seq<nat>, g: seq<nat>, live: seq<bool>, m: nat)
    requires |f| == |live| && m == |LiveIds(live)| == |g|
    requires forall i :: 0 <= i < m ==> LiveIds(live)[i] < |f| && g[i] == f[LiveIds(live)[i]]
    ensures Sum(g, First(m, m)) == Sum(f, live)
  {
    if live != [] {
      var n := |live| - 1;
      if live[n] {
        assert LiveIds(live) == LiveIds(live[..n]) + [n];
        LiveIdsFacts(live[..n]);
        SumPick(f[..n], g[..m - 1], live[..n], m - 1);
        assert First(m, m)[..m - 1] == First(m - 1, m - 1);
      } else {
        LiveIdsFacts(live[..n]);
        SumPick(f[..n], g, live[..n], m);
      }
    }
  }

  // A counter is the size of the set of live rows it stands for.
  lemma {:induction false} SumIsSize(f: seq<nat>, live: seq<bool>)
    requires |f| == |live| && forall i :: 0 <= i < |f| ==> f[i] <= 1
    ensures Sum(f, live) == |set i: nat | i < |f| && live[i] && f[i] == 1|
  {
    if f != [] {
      var n := |f| - 1;
      var g, l := f[..n], live[..n];
      SumIsSize(g, l);
      var all, some := set i: nat | i < |f| && live[i] && f[i] == 1, set i: nat | i < |g| && l[i] && g[i] == 1;
      forall i: nat ensures i in some <==> i in all && i != n { assert i < n ==> g[i] == f[i] && l[i] == live[i]; }
      if live[n] && f[n] == 1 {
        assert all == some + {n};
      } else {
        assert all == some;
      }
    }
  }

  lemma CountIsSize(c: Column, live: seq<bool>, tr: Trail, k: nat)
    requires ColumnOK(c, live, tr)
    ensures Sized(c, |live|) && |c.present| == |live|
    ensures (if k < |c.count| then c.count[k] else 0) == |set i: nat | i < |live| && live[i] && k in Codes(c, i)|
  {
    hide Sum, Codes, ShapeOK, IndexOK, PostingsOK;
    ColumnFacts(c, live, tr);
    if k >= |c.count| {
      forall i: nat | i < |live| ensures k !in Codes(c, i) { CodesFacts(c, |live|, i); }
      assert (set i: nat | i < |live| && live[i] && k in Codes(c, i)) == {};
      return;
    }
    var f := Marks(c, k);
    SumIsSize(f, live);
    var a, b := set i: nat | i < |f| && live[i] && f[i] == 1, set i: nat | i < |live| && live[i] && k in Codes(c, i);
    forall i: nat ensures i in a <==> i in b { assert i < |f| ==> (f[i] == 1 <==> k in Codes(c, i)); }
    assert a == b;
  }

  // ----- renumbering -----

  function PickRows(c: Column, ids: seq<nat>): Column
    requires Sized(c, |c.present|) && forall i :: 0 <= i < |ids| ==> ids[i] < |c.present|
  {
    var c1 := c.(data := Pick(c.data, ids), present := Pick(c.present, ids), postings := Nones(|c.postings|),
                 index := if c.index.Some? then Some([]) else None);
    if c.kind.KText? then
      c1.(terms := Pick(c.terms, ids), docLen := Pick(c.docLen, ids), rawText := Pick(c.rawText, ids))
    else c1
  }

  // The loops that fill the postings and the index again.
  function Refilled(c: Column, i: nat): Column
    requires Sized(c, |c.present|) && i <= |c.present|
  {
    if i == 0 then c
    else
      var c1 := Refilled(c, i - 1);
      if Sized(c1, |c.present|) then
        var c2 := Indexed(c1, i - 1, true);
        if Sized(c2, |c.present|) then Posted(c2, i - 1) else c2
      else c1
  }

  function Permuted(c: Column, ids: seq<nat>): Column
    requires Sized(c, |c.present|) && forall i :: 0 <= i < |ids| ==> ids[i] < |c.present|
  {
    Refilled(PickRows(c, ids), |ids|)
  }

  // The same as two loops, as the source has them: first the postings, then the index.
  function FillPostings(c: Column, i: nat): seq<seq<nat>>
    requires Sized(c, |c.present|) && i <= |c.present|
  {
    if i == 0 then c.postings else PostAll(FillPostings(c, i - 1), Codes(c, i - 1), i - 1)
  }

  function FillIndex(c: Column, i: nat): Option<seq<Pair>>
    requires Sized(c, |c.present|) && i <= |c.present|
  {
    if i == 0 then c.index
    else
      var ix, e := FillIndex(c, i - 1), Entry(c, i - 1);
      if e.None? || ix.None? then ix else Some(Added(ix.value, e.value.0, e.value.1))
  }

  lemma {:induction false} FillsRefill(c: Column, i: nat)
    requires Sized(c, |c.present|) && i <= |c.present|
    ensures Refilled(c, i) == c.(postings := FillPostings(c, i), index := FillIndex(c, i))
    ensures FillIndex(c, i).Some? <==> c.index.Some?
  {
    hide PostAll, Added;
    if i > 0 {
      FillsRefill(c, i - 1);
      var c1 := Refilled(c, i - 1);
      assert Codes(Indexed(c1, i - 1, true), i - 1) == Codes(c, i - 1);
      assert Entry(c1, i - 1) == Entry(c, i - 1);
    }
  }

  lemma PickShape(c: Column, live: seq<bool>)
    requires ShapeOK(c, |live|)
    ensures forall i :: 0 <= i < |LiveIds(live)| ==> LiveIds(live)[i] < |live|
    ensures var ids := LiveIds(live); var c' := PickRows(c, ids);
      && ShapeOK(c', |ids|) && (forall i :: 0 <= i < |ids| ==> Codes(c', i) == Codes(c, ids[i]))
  {
    LiveIdsFacts(live);
    var ids := LiveIds(live);
    forall i | 0 <= i < |ids| ensures RowOK(PickRows(c, ids), i) { assert RowOK(c, ids[i]); }
  }

  lemma PickCounts(c: Column, live: seq<bool>)
    requires ShapeOK(c, |live|) && CountsOK(c, live)
    requires forall i :: 0 <= i < |LiveIds(live)| ==> LiveIds(live)[i] < |live|
    requires ShapeOK(PickRows(c, LiveIds(live)), |LiveIds(live)|)
    requires forall i :: 0 <= i < |LiveIds(live)| ==> Codes(PickRows(c, LiveIds(live)), i) == Codes(c, LiveIds(live)[i])
    ensures CountsOK(PickRows(c, LiveIds(live)), First(|LiveIds(live)|, |LiveIds(live)|))
  {
    hide Sum, RowOK, LiveIds;
    var ids := LiveIds(live);
    var c', m := PickRows(c, ids), |ids|;
    forall k | 0 <= k < |c'.count| ensures c'.count[k] == Sum(Marks(c', k), First(m, m)) {
      SumPick(Marks(c, k), Marks(c', k), live, m);
    }
    SumPick(Docs(c), Docs(c'), live, m);
    SumPick(Lengths(c), Lengths(c'), live, m);
  }

  // A renumbered column whose first i rows are back in the postings and the index.
  ghost predicate RefillOK(c: Column, m: nat, i: nat) {
    && i <= m && ShapeOK(c, m) && CountsOK(c, First(m, m))
    && IndexOK(c, First(i, m)) && PostingsOK(c, Trail(First(i, m), multiset{}))
  }

  lemma RefillStep(c: Column, m: nat, i: nat)
    requires RefillOK(c, m, i) && i < m
    ensures Sized(c, m) && Sized(Indexed(c, i, true), m)
    ensures RefillOK(Posted(Indexed(c, i, true), i), m, i + 1) && SameRows(c, Posted(Indexed(c, i, true), i))
  {
    hide CountsOK, IndexOK, PostingsOK, RowOK;
    IndexTurns(c, First(i, m), i, true);
    assert First(i, m)[i := true] == First(i + 1, m);
    IndexedKeeps(c, i, true);
    var c1 := Indexed(c, i, true);
    ShapeSame(c, c1, m);
    CountsSame(c, c1, First(m, m));
    PostingsSame(c, c1, Trail(First(i, m), multiset{}));
    PostedPostings(c1, m, Trail(First(i, m), multiset{}), i);
    var c2 := Posted(c1, i);
    CodesFacts(c1, m, i);
    PostAllAt(c1.postings, Codes(c1, i), i);
    ShapeSame(c1, c2, m);
    CountsSame(c1, c2, First(m, m));
    IndexSame(c1, c2, First(i + 1, m));
  }

  lemma {:induction false} RefillKeeps(c: Column, m: nat, i: nat)
    requires RefillOK(c, m, 0) && i <= m
    ensures Sized(c, m) && RefillOK(Refilled(c, i), m, i) && SameRows(c, Refilled(c, i))
  {
    hide CountsOK, IndexOK, PostingsOK, RowOK, Posted, Indexed;
    if i > 0 {
      RefillKeeps(c, m, i - 1);
      RefillStep(Refilled(c, i - 1), m, i - 1);
    }
  }

  lemma PickEmpty(c: Column, m: nat)
    requires ShapeOK(c, m) && c.postings == Nones(|c.postings|) && (c.index.Some? ==> c.index.value == [])
    ensures IndexOK(c, First(0, m)) && PostingsOK(c, Trail(First(0, m), multiset{}))
  {
    hide RowOK, Bag;
    BagNobody(Entries(c), First(0, m));
  }

  // Renumbering keeps every count, and fills postings and index afresh.
  lemma PermuteKeeps(c: Column, live: seq<bool>, tr: Trail)
    requires ColumnOK(c, live, tr)
    ensures forall i :: 0 <= i < |LiveIds(live)| ==> LiveIds(live)[i] < |c.present|
    ensures Sized(c, |c.present|)
    ensures var m := |LiveIds(live)|;
      ColumnOK(Permuted(c, LiveIds(live)), First(m, m), Trail(First(m, m), multiset{}))
      && SameRows(PickRows(c, LiveIds(live)), Permuted(c, LiveIds(live)))
  {
    hide CountsOK, IndexOK, PostingsOK, RowOK, Refilled, LiveIds;
    var m := |LiveIds(live)|;
    PickShape(c, live);
    PickCounts(c, live);
    PickEmpty(PickRows(c, LiveIds(live)), m);
    RefillKeeps(PickRows(c, LiveIds(live)), m, m);
  }

  // ----- reading values back -----

  // `get`.
  function ValueAt(c: Column, id: nat): W.AttrValue
    requires Sized(c, |c.present|) && id < |c.present|
  {
    if !c.present[id] then W.Null
    else match c.kind
      case KTag => W.Tag(if c.data[id] < |c.dict| then c.dict[c.data[id]] else [])
      case KText => W.Text(c.rawText[id])
      case KInt => W.Int64(if c.data[id] < W.LONG_LIMIT then c.data[id] else 0)
      case KFloat => W.Float64(if c.data[id] < W.LONG_LIMIT then c.data[id] else 0)
      case KBool => W.Bool(if c.data[id] < W.LONG_LIMIT then c.data[id] else 0)
  }

  lemma SameValues(c: Column, c': Column, id: nat)
    requires SameRows(c, c') && Sized(c, |c.present|) && id < |c.present|
    ensures ValueAt(c', id) == ValueAt(c, id)
  {
  }

  lemma InternValues(c: Column, v: W.AttrValue, live: seq<bool>, tr: Trail, id: nat)
    requires ColumnOK(c, live, tr) && Accepts(c.kind, v) && id < |live|
    requires ColumnOK(Ready(c, v), live, tr) && c.dict <= Ready(c, v).dict
    ensures ValueAt(Ready(c, v), id) == ValueAt(c, id)
  {
    hide CountsOK, IndexOK, PostingsOK, Interned, InternedAll;
    assert RowOK(c, id);
    match v
    case Tag(t) => InternSame(c, t);
    case Text(t) => InternAllSame(c, Tokenize(t));
    case _ =>
  }

  // A new row holds the value that was appended, and every other row what it held.
  lemma AppendValues(c: Column, v: W.AttrValue, live: seq<bool>, tr: Trail)
    requires ColumnOK(c, live, tr) && Accepts(c.kind, v)
    ensures var c' := AppendCell(c, v);
      && Sized(c, |live|) && Sized(c', |live| + 1) && c'.kind == c.kind && (c'.index.Some? <==> c.index.Some?)
      && ValueAt(c', |live|) == v && forall id :: 0 <= id < |live| ==> ValueAt(c', id) == ValueAt(c, id)
  {
    hide ColumnOK, Ready, RowOK, PostAll, Codes;
    ColumnFacts(c, live, tr);
    ReadyKeeps(c, v, live, tr);
    var c1 := Ready(c, v);
    ColumnFacts(c1, live, tr);
    forall id | 0 <= id < |live| ensures ValueAt(c1, id) == ValueAt(c, id) { InternValues(c, v, live, tr, id); }
    CellReads(c1, v);
  }

  lemma CellReads(c: Column, v: W.AttrValue)
    requires Accepts(c.kind, v) && CellOK(c, CellOf(c, v))
    ensures v.Tag? ==> CellOf(c, v).data < |c.dict| && c.dict[CellOf(c, v).data] == v.text
  {
  }

  lemma SetValues(c: Column, id: nat, v: W.AttrValue, live: seq<bool>, tr: Trail)
    requires ColumnOK(c, live, tr) && Accepts(c.kind, v) && id < |live| && live[id]
    ensures var c' := SetCell(c, id, v);
      && Sized(c, |live|) && Sized(c', |live|) && c'.kind == c.kind && (c'.index.Some? <==> c.index.Some?)
      && ValueAt(c', id) == v && forall i :: 0 <= i < |live| && i != id ==> ValueAt(c', i) == ValueAt(c, i)
  {
    hide ColumnOK, Ready, RowOK, PostAll, Codes, Turned;
    ColumnFacts(c, live, tr);
    var off := live[id := false];
    TurnKeeps(c, live, tr, id, false);
    var c0 := Turned(c, id, false);
    ReadyKeeps(c0, v, off, tr);
    var c1 := Ready(c0, v);
    ColumnFacts(c1, off, tr);
    forall i | 0 <= i < |live| ensures ValueAt(c1, i) == ValueAt(c, i) {
      InternValues(c0, v, off, tr, i);
      SameValues(c, c0, i);
    }
    CellReads(c1, v);
    ReplaceKeeps(c1, id, CellOf(c1, v), off, tr);
    var c2 := Replaced(c1, id, CellOf(c1, v));
    TurnKeeps(c2, off, After(tr, id, Codes(c1, id)), id, true);
    forall i | 0 <= i < |live| ensures ValueAt(Turned(c2, id, true), i) == ValueAt(c2, i) {
      SameValues(c2, Turned(c2, id, true), i);
    }
  }

  lemma CopyValues(c: Column, src: nat, live: seq<bool>, tr: Trail)
    requires ColumnOK(c, live, tr) && src < |live|
    ensures var c' := CopyCell(c, src);
      && Sized(c, |live|) && Sized(c', |live| + 1) && c'.kind == c.kind && (c'.index.Some? <==> c.index.Some?)
      && ValueAt(c', |live|) == ValueAt(c, src) && forall id :: 0 <= id < |live| ==> ValueAt(c', id) == ValueAt(c, id)
  {
    hide CountsOK, IndexOK, PostingsOK, RowOK, PostAll, Codes;
  }

  lemma PermuteValues(c: Column, live: seq<bool>, tr: Trail)
    requires ColumnOK(c, live, tr)
    ensures forall i :: 0 <= i < |LiveIds(live)| ==> LiveIds(live)[i] < |live|
    ensures var ids := LiveIds(live);
      && Sized(c, |live|) && (forall i :: 0 <= i < |ids| ==> ids[i] < |c.present|)
      && var c' := Permuted(c, ids);
      && Sized(c', |ids|) && c'.kind == c.kind && (c'.index.Some? <==> c.index.Some?)
      && forall i :: 0 <= i < |ids| ==> ValueAt(c', i) == ValueAt(c, ids[i])
  {
    hide CountsOK, IndexOK, PostingsOK, RowOK, Permuted, LiveIds;
    LiveIdsFacts(live);
    PermuteKeeps(c, live, tr);
  }

  // ----- what a predicate resolves to -----

  // The postings of a code, with the rows that are not live left out.
  function Filtered(ps: seq<nat>, live: seq<bool>): seq<nat> {
    if ps == [] then []
    else
      var last := ps[|ps| - 1];
      if last < |live| && live[last] then Filtered(ps[..|ps| - 1], live) + [last] else Filtered(ps[..|ps| - 1], live)
  }

  lemma {:induction false} FilteredCount(ps: seq<nat>, live: seq<bool>, i: nat)
    ensures multiset(Filtered(ps, live))[i] == (if i < |live| && live[i] then multiset(ps)[i] else 0)
  {
    if ps != [] {
      var rest: seq<nat>, last: nat := ps[..|ps| - 1], ps[|ps| - 1];
      FilteredCount(rest, live, i);
      assert ps == rest + [last];
      PostCount(rest, last, i);
      var kept: seq<nat> := Filtered(rest, live);
      PostCount(kept, last, i);
    }
  }

  lemma {:induction false} FilteredLive(ps: seq<nat>, live: seq<bool>)
    ensures forall i :: 0 <= i < |Filtered(ps, live)| ==> Filtered(ps, live)[i] < |live| && live[Filtered(ps, live)[i]]
  {
    if ps != [] { FilteredLive(ps[..|ps| - 1], live); }
  }

  lemma {:induction false} DistinctCounts(s: seq<nat>)
    ensures Distinct(s) <==> forall x: nat :: multiset(s)[x] <= 1
  {
    if s != [] {
      var rest: seq<nat>, last: nat := s[..|s| - 1], s[|s| - 1];
      DistinctCounts(rest);
      assert s == rest + [last];
      assert multiset(s) == multiset(rest) + multiset{last};
      if Distinct(s) {
        assert Distinct(rest);
        assert last !in rest;
      }
      if forall x: nat :: multiset(s)[x] <= 1 {
        forall x: nat ensures multiset(rest)[x] <= 1 { assert multiset(s)[x] <= 1; }
        assert multiset(s)[last] <= 1;
        assert last !in rest;
      }
    }
  }

  // An allowlist is exact: the live rows that hold the code, each once.
  ghost predicate Exact(c: Column, live: seq<bool>, k: nat, ids: seq<nat>)
    requires Sized(c, |live|)
  {
    Distinct(ids) && forall i: nat :: i in ids <==> i < |live| && live[i] && k in Codes(c, i)
  }

  ghost predicate AllPosted(live: seq<bool>, tr: Trail) {
    |tr.posted| == |live| && forall i :: 0 <= i < |live| && live[i] ==> tr.posted[i]
  }

  // An equality predicate finds every live row that holds the value, whatever happened.
  // It finds nothing else, and nothing twice, if and only if no live row had this very
  // code overwritten by `set_row` since the postings were last built.
  lemma EqualityExact(c: Column, live: seq<bool>, tr: Trail, k: nat)
    requires ColumnOK(c, live, tr) && AllPosted(live, tr) && k < |c.postings|
    ensures Sized(c, |live|)
    ensures var ids := Filtered(c.postings[k], live);
      && (forall i: nat :: i < |live| && live[i] && k in Codes(c, i) ==> i in ids)
      && (Exact(c, live, k, ids) <==> forall i: nat :: i < |live| && live[i] ==> tr.over[(i, k)] == 0)
  {
    hide ShapeOK, CountsOK, IndexOK, Codes, Filtered;
    ColumnFacts(c, live, tr);
    var ids: seq<nat> := Filtered(c.postings[k], live);
    forall i: nat
      ensures multiset(ids)[i] ==
        if i < |live| && live[i] then (if k in Codes(c, i) then 1 else 0) + tr.over[(i, k)] else 0
    {
      FilteredCount(c.postings[k], live, i);
    }
    DistinctCounts(ids);
    forall i: nat ensures i in ids <==> multiset(ids)[i] > 0 {}
  }

  // A posted live row whose value `set_row` replaces, or writes again, spoils equality on
  // the value it held, from then on until a rebuild.
  lemma SetSpoilsEquality(c: Column, live: seq<bool>, tr: Trail, id: nat, v: W.AttrValue, k: nat)
    requires ColumnOK(c, live, tr) && AllPosted(live, tr) && Accepts(c.kind, v) && id < |live| && live[id]
    requires Sized(c, |live|) && k in Codes(c, id)
    ensures var c' := SetCell(c, id, v);
      && ColumnOK(c', live, Overwritten(tr, id, Codes(c, id))) && Sized(c', |live|) && k < |c'.postings|
      && !Exact(c', live, k, Filtered(c'.postings[k], live))
  {
    hide ColumnOK, SetCell, Codes, Filtered, Pairs, Exact;
    var c', tr' := SetCell(c, id, v), Overwritten(tr, id, Codes(c, id));
    SetKeeps(c, id, v, live, tr);
    CodesOf(c, live, tr, id);
    PairsAt(id, Codes(c, id), id, k);
    OverWithin(c', live, tr', id, k);
    EqualityExact(c', live, tr', k);
  }

  lemma CodesOf(c: Column, live: seq<bool>, tr: Trail, id: nat)
    requires ColumnOK(c, live, tr) && id < |live|
    ensures Sized(c, |live|) && Distinct(Codes(c, id))
  {
    CodesFacts(c, |live|, id);
  }

  lemma OverWithin(c: Column, live: seq<bool>, tr: Trail, i: nat, k: nat)
    requires ColumnOK(c, live, tr) && tr.over[(i, k)] > 0
    ensures Sized(c, |live|) && k < |c.postings| && |tr.posted| == |live|
  {
  }

  const NO_TAGS := Column(KTag, [], [], [], [], [], [], [], [], 0, 0, None)
  const NO_TRAIL := Trail([], multiset{})

  lemma NoTagsOK()
    ensures ColumnOK(NO_TAGS, [], NO_TRAIL) && Sized(NO_TAGS, |NO_TAGS.present|)
  {
  }

  // The smallest case: one row tagged "a", then "b". Equality on "a" still finds it.
  lemma StaleTag()
    ensures var c := AppendCell(NO_TAGS, W.Tag([97]));
      && Sized(c, 1) && |c.present| == 1
      && var c' := SetCell(Turned(c, 0, true), 0, W.Tag([98]));
      && Sized(c', 1) && |c'.postings| > 0
      && !Exact(c', [true], 0, Filtered(c'.postings[0], [true]))
  {
    hide ColumnOK, SetCell, Turned, Filtered, Exact, AppendCell, Codes, NO_TAGS, NO_TRAIL;
    NoTagsOK();
    FirstTag();
    var c, tr := AppendCell(NO_TAGS, W.Tag([97])), Trail([true], multiset{});
    TurnKeeps(c, [false], tr, 0, true);
    assert [false][0 := true] == [true];
    var c1 := Turned(c, 0, true);
    SameRowsRead(c, c1);
    SetSpoilsEquality(c1, [true], tr, 0, W.Tag([98]), 0);
  }

  lemma FirstTag()
    ensures var c := AppendCell(NO_TAGS, W.Tag([97]));
      && ColumnOK(c, [false], Trail([true], multiset{}))
      && Sized(c, 1) && |c.present| == 1 && c.kind == KTag && 0 in Codes(c, 0)
  {
    hide ColumnOK, PostAll;
    NoTagsOK();
    AppendKeeps(NO_TAGS, W.Tag([97]), [], NO_TRAIL);
    assert [] + [false] == [false] && NO_TRAIL.posted + [true] == [true];
    var c := AppendCell(NO_TAGS, W.Tag([97]));
    ColumnFacts(c, [false], Trail([true], multiset{}));
    assert Codes(c, 0)[0] == 0;
  }

  // A row's pair is in the bag once, when the row is live, and nothing else is.
  lemma {:induction false} BagAt(es: seq<Option<Pair>>, live: seq<bool>, x: Pair)
    requires |es| == |live| && forall i :: 0 <= i < |es| && es[i].Some? ==> es[i].value.1 == i
    ensures Bag(es, live)[x] == (if x.1 < |es| && live[x.1] && es[x.1] == Some(x) then 1 else 0)
  {
    if es != [] { BagAt(es[..|es| - 1], live[..|es| - 1], x); }
  }

  function Ids(ps: seq<Pair>): (r: seq<nat>)
    ensures |r| == |ps| && forall i :: 0 <= i < |ps| ==> r[i] == ps[i].1
  {
    seq(|ps|, i requires 0 <= i < |ps| => ps[i].1)
  }

  // Pairs that occur once each and have different ids.
  lemma IdsDistinct(ps: seq<Pair>)
    requires forall x: Pair :: multiset(ps)[x] <= 1
    requires forall x: Pair, y: Pair :: x in ps && y in ps && x.1 == y.1 ==> x == y
    ensures Distinct(Ids(ps))
  {
    forall i, j | 0 <= i < j < |ps| ensures ps[i].1 != ps[j].1 {
      if ps[i] == ps[j] { Twice(ps, i, j); }
    }
  }

  // A range predicate on an indexed column: exactly the live rows whose key lies between
  // the bounds, each once, whatever happened to the column before.
  lemma RangeExact(c: Column, live: seq<bool>, tr: Trail, lo: Key, hi: Key)
    requires ColumnOK(c, live, tr) && c.index.Some?
    ensures Sized(c, |live|)
    ensures var ids := Ids(Select(c.index.value, lo, hi));
      && Distinct(ids)
      && forall i: nat :: i in ids <==> i < |live| && live[i] && c.present[i] && lo <= KeyOf(c.kind, c.data[i]) <= hi
  {
    hide ShapeOK, CountsOK, PostingsOK, KeyOf, Select, Bag;
    ColumnFacts(c, live, tr);
    var es, sel := Entries(c), Select(c.index.value, lo, hi);
    forall x: Pair
      ensures multiset(sel)[x] == if x.1 < |live| && live[x.1] && es[x.1] == Some(x) && lo <= x.0 <= hi then 1 else 0
    {
      SelectIsFilter(c.index.value, lo, hi, x);
      BagAt(es, live, x);
    }
    forall x: Pair ensures x in sel <==> multiset(sel)[x] > 0 {}
    IdsDistinct(sel);
    forall i: nat
      ensures i in Ids(sel) <==> i < |live| && live[i] && c.present[i] && lo <= KeyOf(c.kind, c.data[i]) <= hi
    {
      InIds(sel, i);
      if i < |live| && c.present[i] {
        var x: Pair := (KeyOf(c.kind, c.data[i]), i);
        assert es[i] == Some(x);
        assert x in sel <==> multiset(sel)[x] > 0;
      }
    }
  }

  lemma InIds(ps: seq<Pair>, i: nat)
    ensures i in Ids(ps) <==> exists x: Pair :: x in ps && x.1 == i
  {
    if i in Ids(ps) {
      var j :| 0 <= j < |ps| && Ids(ps)[j] == i;
      assert ps[j] in ps;
    }
    if x: Pair :| x in ps && x.1 == i {
      var j :| 0 <= j < |ps| && ps[j] == x;
      assert Ids(ps)[j] == i;
    }
  }

  // In terms of the values: signed order for integers, totalOrder for doubles.
  lemma RangeByValue(c: Column, live: seq<bool>, tr: Trail, lo: W.Long, hi: W.Long)
    requires ColumnOK(c, live, tr) && c.index.Some?
    ensures Sized(c, |live|) && forall i :: 0 <= i < |live| && c.present[i] ==> c.data[i] < W.LONG_LIMIT
    ensures c.kind.KInt? ==>
      var ids := Ids(Select(c.index.value, SortableInt(lo), SortableInt(hi)));
      Distinct(ids) && forall i: nat :: i in ids <==>
        i < |live| && live[i] && c.present[i] && Signed(lo) <= Signed(c.data[i]) <= Signed(hi)
    ensures c.kind.KFloat? ==>
      var ids := Ids(Select(c.index.value, SortableDouble(lo), SortableDouble(hi)));
      Distinct(ids) && forall i: nat :: i in ids <==>
        i < |live| && live[i] && c.present[i] && TotalOrder(lo, c.data[i]) && TotalOrder(c.data[i], hi)
  {
    hide CountsOK, IndexOK, PostingsOK, Select;
    forall i | 0 <= i < |live| && c.present[i] ensures c.data[i] < W.LONG_LIMIT { assert RowOK(c, i); }
    if c.kind.KInt? {
      RangeExact(c, live, tr, SortableInt(lo), SortableInt(hi));
    } else {
      RangeExact(c, live, tr, SortableDouble(lo), SortableDouble(hi));
    }
  }
}
