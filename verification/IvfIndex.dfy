/** The inverted-file index: rows in lists by nearest centroid, and a search that keeps the
    K best in a bounded heap while it scans the probed lists. */
module IvfIndexes {
  import opened Basics
  import opened Sequences
  import opened TopK
  import opened FilteredSearch

  // ----- the bounded heap -----

  // The order of the heap's pairs: by distance, then by id.
  predicate UpTo(a: Entry, b: Entry) { a.dist < b.dist || (a.dist == b.dist && a.id <= b.id) }

  ghost predicate Heap(es: seq<Entry>) {
    forall i, j :: 0 <= i <= j < |es| ==> UpTo(es[i], es[j])
  }

  // A priority queue is its entries in order, the top last. `emplace`.
  method Emplace(heap: seq<Entry>, e: Entry) returns (r: seq<Entry>)
    requires Heap(heap)
    ensures Heap(r) && multiset(r) == multiset(heap) + multiset{e}
  {
    var p: nat := |heap|;
    while p > 0 && !UpTo(heap[p - 1], e)
      invariant p <= |heap| && (p < |heap| ==> UpTo(e, heap[p]))
    {
      p := p - 1;
    }
    HeapInsert(heap, p, e);
    InsertMultiset(heap, p, e);
    r := InsertAt(heap, p, e);
  }

  lemma HeapInsert(heap: seq<Entry>, p: nat, e: Entry)
    requires Heap(heap) && p <= |heap| && (p > 0 ==> UpTo(heap[p - 1], e)) && (p < |heap| ==> UpTo(e, heap[p]))
    ensures Heap(InsertAt(heap, p, e))
  {
    var r := InsertAt(heap, p, e);
    forall i, j | 0 <= i <= j < |r| ensures UpTo(r[i], r[j]) { HeapInsertAt(heap, p, e, i, j); }
  }

  lemma HeapAt(heap: seq<Entry>, i: nat, j: nat)
    requires Heap(heap) && i <= j < |heap|
    ensures UpTo(heap[i], heap[j])
  {
  }

  lemma HeapInsertAt(heap: seq<Entry>, p: nat, e: Entry, i: nat, j: nat)
    requires Heap(heap) && p <= |heap| && (p > 0 ==> UpTo(heap[p - 1], e)) && (p < |heap| ==> UpTo(e, heap[p]))
    requires i <= j <= |heap|
    ensures UpTo(InsertAt(heap, p, e)[i], InsertAt(heap, p, e)[j])
  {
    hide Heap;
    if i < p {
      if j < p { HeapAt(heap, i, j); } else { HeapAt(heap, i, p - 1); if j > p { HeapAt(heap, p, j - 1); } }
    } else if i == p {
      if j > p { HeapAt(heap, p, j - 1); }
    } else {
      HeapAt(heap, i - 1, j - 1);
    }
  }

  lemma HeapRises(heap: seq<Entry>)
    requires Heap(heap)
    ensures Rising(heap)
  {
    forall i, j | 0 <= i <= j < |heap| ensures heap[i].dist <= heap[j].dist { HeapAt(heap, i, j); }
  }

  // One more candidate while the heap has room.
  lemma RoomStep(seen: seq<Entry>, k: nat, heap: seq<Entry>, e: Entry, r: seq<Entry>)
    requires Nearest(seen, k, heap) && |heap| < k && Heap(r) && multiset(r) == multiset(heap) + multiset{e}
    ensures Nearest(seen + [e], k, r)
  {
    hide Heap;
    HeapRises(r);
    WholeHits(seen, k, heap);
    assert multiset(seen + [e]) == multiset(seen) + multiset{e};
    assert multiset(r) == multiset(seen + [e]);
    assert |r| == |multiset(r)| && |seen + [e]| == |multiset(seen + [e])|;
    assert NoneNearer(seen + [e], r);
  }

  // A nearer candidate takes the place of the top.
  lemma SwapStep(seen: seq<Entry>, k: nat, heap: seq<Entry>, e: Entry, r: seq<Entry>)
    requires Nearest(seen, k, heap) && 0 < k == |heap| && Heap(heap) && e.dist < heap[k - 1].dist
    requires Heap(r) && multiset(r) == multiset(heap[..k - 1]) + multiset{e}
    ensures Nearest(seen + [e], k, r)
  {
    hide Heap, Nearest, Rising;
    NearestParts(seen, k, heap);
    HeapRises(r);
    HeapRises(heap);
    var top := heap[k - 1];
    assert heap == heap[..k - 1] + [top];
    assert multiset(heap) == multiset(heap[..k - 1]) + multiset{top};
    assert multiset(seen + [e]) == multiset(seen) + multiset{e};
    assert |r| == |multiset(r)| && |heap[..k - 1]| == |multiset(heap[..k - 1])|;
    forall x, o | multiset(seen + [e])[x] > multiset(r)[x] && o in r ensures o.dist <= x.dist {
      assert o in multiset(r);
      BelowTop(heap, e, o);
      assert top in heap;
      if multiset(seen)[x] > multiset(heap)[x] { LeftOut(seen, k, heap, x, top); }
    }
    SubSize(heap, seen);
    assert NoneNearer(seen + [e], r);
    IsNearest(seen + [e], k, r);
  }

  lemma BelowTop(heap: seq<Entry>, e: Entry, o: Entry)
    requires heap != [] && Rising(heap) && e.dist < heap[|heap| - 1].dist
    requires o == e || o in multiset(heap[..|heap| - 1])
    ensures o.dist <= heap[|heap| - 1].dist
  {
    if o != e {
      var i :| 0 <= i < |heap| - 1 && heap[i] == o;
    }
  }

  // A candidate as far as the top, or farther, is left out.
  lemma SkipStep(seen: seq<Entry>, k: nat, heap: seq<Entry>, e: Entry)
    requires Nearest(seen, k, heap) && 0 < k == |heap| && Heap(heap) && e.dist >= heap[k - 1].dist
    ensures Nearest(seen + [e], k, heap)
  {
    hide Heap;
    HeapRises(heap);
    assert multiset(seen + [e]) == multiset(seen) + multiset{e};
    SubSize(heap, seen);
    forall x, o | multiset(seen + [e])[x] > multiset(heap)[x] && o in heap ensures o.dist <= x.dist {
      var i :| 0 <= i < |heap| && heap[i] == o;
      assert heap[i].dist <= heap[k - 1].dist;
    }
    assert NoneNearer(seen + [e], heap);
  }

  // ----- the lists -----

  function Rows(lists: seq<seq<nat>>, order: seq<nat>): (r: seq<seq<nat>>)
    requires forall p :: 0 <= p < |order| ==> order[p] < |lists|
    ensures |r| == |order| && forall p :: 0 <= p < |r| ==> r[p] == lists[order[p]]
  {
    seq(|order|, p requires 0 <= p < |order| => lists[order[p]])
  }

  // Every row is in one list, once.
  ghost predicate Partition(lists: seq<seq<nat>>, n: nat) {
    forall id: nat :: multiset(Flatten<nat>(lists))[id] == if id < n then 1 else 0
  }

  predicate AllBelow(order: seq<nat>, n: nat) { forall p :: 0 <= p < |order| ==> order[p] < n }

  // What the visited lists hold.
  function Visited(lists: seq<seq<nat>>, order: seq<nat>): multiset<nat>
    requires AllBelow(order, |lists|)
  {
    multiset(Flatten<nat>(Rows(lists, order)))
  }

  // The order in which lists are visited does not change what is seen.
  lemma {:induction false} VisitOrder(lists: seq<seq<nat>>, a: seq<nat>, b: seq<nat>)
    requires multiset(a) == multiset(b) && AllBelow(a, |lists|) && AllBelow(b, |lists|)
    ensures Visited(lists, a) == Visited(lists, b)
    decreases |a|
  {
    hide Visited, AllBelow;
    if a == [] {
      assert |multiset(b)| == |b|;
      assert a == b;
    } else {
      var a', last, x, y := TakeLast(a, b);
      VisitOrder(lists, a', x + y);
      NoneBelow(|lists|);
      MiddleRow(lists, a', last, []);
      assert a' + [last] + [] == a && a' + [] == a';
      MiddleRow(lists, x, last, y);
    }
  }

  lemma NoneBelow(n: nat)
    ensures AllBelow([], n)
  {
  }

  // The last of a, found in b.
  lemma TakeLast(a: seq<nat>, b: seq<nat>) returns (a': seq<nat>, last: nat, x: seq<nat>, y: seq<nat>)
    requires multiset(a) == multiset(b) && a != []
    ensures a == a' + [last] && b == x + [last] + y && multiset(a') == multiset(x + y)
    ensures forall n :: AllBelow(a, n) ==> AllBelow(a', n) && last < n
    ensures forall n :: AllBelow(b, n) ==> AllBelow(x, n) && AllBelow(y, n) && AllBelow(x + y, n)
  {
    a', last := a[..|a| - 1], a[|a| - 1];
    assert last in multiset(b);
    var j :| 0 <= j < |b| && b[j] == last;
    x, y := b[..j], b[j + 1..];
    SameWithoutOne(a, b, j);
  }

  lemma SameWithoutOne(a: seq<nat>, b: seq<nat>, j: nat)
    requires multiset(a) == multiset(b) && a != [] && j < |b| && b[j] == a[|a| - 1]
    ensures multiset(a[..|a| - 1]) == multiset(b[..j] + b[j + 1..])
  {
    var last, a', b' := b[j], a[..|a| - 1], b[..j] + b[j + 1..];
    assert a == a' + [last];
    assert b == b[..j] + [last] + b[j + 1..];
    forall e ensures multiset(a')[e] == multiset(b')[e] {
      assert multiset(a)[e] == multiset(a')[e] + multiset{last}[e];
      assert multiset(b)[e] == multiset(b')[e] + multiset{last}[e];
    }
  }

  lemma LastRow(lists: seq<seq<nat>>, x: seq<nat>, c: nat)
    requires c < |lists| && forall p :: 0 <= p < |x| ==> x[p] < |lists|
    ensures Flatten<nat>(Rows(lists, x + [c])) == Flatten<nat>(Rows(lists, x)) + lists[c]
  {
    assert Rows(lists, x + [c]) == Rows(lists, x) + [lists[c]];
    FlattenConcat<nat>(Rows(lists, x), [lists[c]]);
    FlattenOne<nat>(lists[c]);
  }

  lemma MiddleRow(lists: seq<seq<nat>>, x: seq<nat>, c: nat, y: seq<nat>)
    requires c < |lists| && AllBelow(x, |lists|) && AllBelow(y, |lists|)
    ensures Visited(lists, x + [c] + y) == Visited(lists, x + y) + multiset(lists[c])
  {
    assert Rows(lists, x + [c] + y) == Rows(lists, x + [c]) + Rows(lists, y);
    assert Rows(lists, x + y) == Rows(lists, x) + Rows(lists, y);
    FlattenConcat<nat>(Rows(lists, x + [c]), Rows(lists, y));
    FlattenConcat<nat>(Rows(lists, x), Rows(lists, y));
    LastRow(lists, x, c);
  }

  // A row goes to the end of one list.
  lemma PutInList(lists: seq<seq<nat>>, n: nat, c: nat)
    requires Partition(lists, n) && c < |lists|
    ensures Partition(lists[c := lists[c] + [n]], n + 1)
  {
    hide Flatten;
    FlattenPut(lists, n, c);
  }

  lemma FlattenPut(lists: seq<seq<nat>>, n: nat, c: nat)
    requires c < |lists|
    ensures multiset(Flatten<nat>(lists[c := lists[c] + [n]])) == multiset(Flatten<nat>(lists)) + multiset{n}
  {
    hide Flatten;
    var lists', a, b := lists[c := lists[c] + [n]], lists[..c], lists[c + 1..];
    assert lists == a + [lists[c]] + b && lists' == a + [lists[c] + [n]] + b;
    FlattenConcat<nat>(a + [lists[c]], b);
    FlattenConcat<nat>(a, [lists[c]]);
    FlattenOne<nat>(lists[c]);
    FlattenConcat<nat>(a + [lists[c] + [n]], b);
    FlattenConcat<nat>(a, [lists[c] + [n]]);
    FlattenOne<nat>(lists[c] + [n]);
    var x, y, row := Flatten<nat>(a), Flatten<nat>(b), lists[c];
    assert Flatten<nat>(lists) == x + row + y && Flatten<nat>(lists') == x + (row + [n]) + y;
    assert x + (row + [n]) + y == x + row + [n] + y;
  }

  function NoRows(k: nat): (r: seq<seq<nat>>)
    ensures |r| == k && forall c :: 0 <= c < k ==> r[c] == []
  {
    seq(k, _ => [])
  }

  lemma {:induction false} EmptyLists(k: nat)
    ensures Flatten<nat>(NoRows(k)) == []
  {
    if k > 0 {
      EmptyLists(k - 1);
      assert NoRows(k) == NoRows(k - 1) + [[]];
      FlattenConcat<nat>(NoRows(k - 1), [[]]);
      FlattenOne<nat>([]);
    }
  }

  // All lists together are all rows, each once.
  lemma AllListsAllRows(lists: seq<seq<nat>>, order: seq<nat>, d: seq<Dist>)
    requires Partition(lists, |d|) && multiset(order) == multiset(Count(|lists|))
    ensures forall p :: 0 <= p < |order| ==> order[p] < |lists|
    ensures var ids := Flatten<nat>(Rows(lists, order));
      && (forall i :: 0 <= i < |ids| ==> ids[i] < |d|)
      && multiset(Listing(ids, d)) == multiset(Ranked(d))
  {
    forall p | 0 <= p < |order| ensures order[p] < |lists| {
      assert order[p] in multiset(Count(|lists|));
    }
    VisitOrder(lists, order, Count(|lists|));
    assert Rows(lists, Count(|lists|)) == lists;
    var ids := Flatten<nat>(Rows(lists, order));
    assert multiset(ids) == multiset(Flatten<nat>(lists));
    forall i | 0 <= i < |ids| ensures ids[i] < |d| { assert multiset(ids)[ids[i]] > 0; }
    OnceIsDistinct(ids);
    forall e ensures multiset(Listing(ids, d))[e] == multiset(Ranked(d))[e] {
      ListingOnce(ids, d, e);
      RankedOnce(d, e);
      assert e.id in ids <==> multiset(ids)[e.id] > 0;
    }
  }

  lemma OnceIsDistinct(ids: seq<nat>)
    requires forall id: nat :: multiset(ids)[id] <= 1
    ensures Distinct(ids)
  {
    forall i, j | 0 <= i < j < |ids| ensures ids[i] != ids[j] {
      var x, y := ids[..j], ids[j..];
      var v: nat := ids[i];
      assert ids == x + y && y[0] == ids[j] && x[i] == v;
      assert multiset(ids)[v] == multiset(x)[v] + multiset(y)[v];
      assert v in multiset(x) && ids[j] in multiset(y);
      assert multiset(ids)[v] <= 1;
    }
  }

  // The first of the nearest centroids, given the distances to all of them.
  ghost predicate Closest(dc: seq<Dist>, c: nat) {
    c < |dc| && (forall b :: 0 <= b < |dc| ==> dc[c] <= dc[b]) && forall b :: 0 <= b < c ==> dc[c] < dc[b]
  }

  // `nearest_centroid`.
  method NearestCentroid(dc: seq<Dist>) returns (best: nat)
    requires dc != []
    ensures Closest(dc, best)
  {
    best := 0;
    for c := 1 to |dc|
      invariant best < c && (forall b :: 0 <= b < c ==> dc[best] <= dc[b]) && forall b :: 0 <= b < best ==>
        dc[best] < dc[b]
    {
      if dc[c] < dc[best] { best := c; }
    }
  }

  // Each row is in the list of its closest centroid, and in no other.
  ghost predicate Filed(lists: seq<seq<nat>>, dcs: seq<seq<Dist>>) {
    && (forall c: nat, i: nat {:trigger i in lists[c]} ::
          c < |lists| && i in lists[c] ==> i < |dcs| && Closest(dcs[i], c))
    && forall c: nat, i: nat :: c < |lists| && i < |dcs| && Closest(dcs[i], c) ==> i in lists[c]
  }

  lemma NoneFiled(k: nat)
    ensures Filed(NoRows(k), [])
  {
  }

  lemma OneClosest(dc: seq<Dist>, b: nat, c: nat)
    requires Closest(dc, b) && Closest(dc, c)
    ensures b == c
  {
    assert dc[b] <= dc[c] <= dc[b];
  }

  lemma InList(lists: seq<seq<nat>>, dcs: seq<seq<Dist>>, c: nat, i: nat)
    requires Filed(lists, dcs) && c < |lists|
    ensures i in lists[c] <==> i < |dcs| && Closest(dcs[i], c)
  {
  }

  lemma FileOne(lists: seq<seq<nat>>, dcs: seq<seq<Dist>>, n: nat, c: nat)
    requires n < |dcs| && Filed(lists, dcs[..n]) && Closest(dcs[n], c) && c < |lists|
    ensures Filed(lists[c := lists[c] + [n]], dcs[..n + 1])
  {
    var lists', was, now := lists[c := lists[c] + [n]], dcs[..n], dcs[..n + 1];
    forall b: nat, i: nat | b < |lists'| ensures i in lists'[b] <==> i < |now| && Closest(now[i], b) {
      InList(lists, was, b, i);
      if i == n && Closest(dcs[n], b) { OneClosest(dcs[n], b, c); }
    }
  }

  lemma ClosestIsOne(dc: seq<Dist>, c: nat)
    requires Closest(dc, c)
    ensures c < |dc|
  {
  }

  lemma NothingWanted(lists: seq<seq<nat>>, d: seq<Dist>, k: nat)
    requires Partition(lists, |d|) && (k == 0 || lists == [])
    ensures Nearest(Ranked(d), k, [])
  {
    if lists == [] {
      assert Flatten<nat>(lists) == [];
      assert multiset(Flatten<nat>(lists))[0] == 0;
    }
    assert NoneNearer(Ranked(d), []);
  }

  // What the partition leaves is an order of the centroids.
  lemma CentroidOrder(dc: seq<Dist>, parted: seq<Entry>, probe: nat)
    requires multiset(parted) == multiset(Ranked(dc))
    requires forall p, q :: 0 <= p < probe <= q < |parted| ==> parted[p].dist <= parted[q].dist
    ensures var order := IdsOf(parted);
      && multiset(order) == multiset(Count(|dc|)) && AllBelow(order, |dc|)
      && forall p, q :: 0 <= p < probe <= q < |order| ==> dc[order[p]] <= dc[order[q]]
  {
    SameIds(parted, Ranked(dc));
    assert IdsOf(Ranked(dc)) == Count(|dc|);
    forall p | 0 <= p < |parted| ensures parted[p].id < |dc| && parted[p].dist == dc[parted[p].id] {
      assert parted[p] in multiset(parted);
      assert parted[p] in Ranked(dc);
    }
  }

  class IvfIndex {
    var nlist: nat
    var nprobe: nat
    var trained: bool
    var lists: seq<seq<nat>>
    var size: nat

    ghost predicate Valid()
      reads this
    {
      Partition(lists, size) && (trained ==> |lists| == nlist)
    }

    constructor (nlist: nat, nprobe: nat)
      ensures Valid() && !trained && size == 0 && this.nlist == nlist && this.nprobe == nprobe
    {
      this.nlist, this.nprobe := nlist, nprobe;
      trained, lists, size := false, [], 0;
    }

    // The last part of `train`: rows into lists. dcs are the distances of each training
    // vector to the final centroids.
    method Train(dcs: seq<seq<Dist>>)
      requires nlist > 0 && forall i :: 0 <= i < |dcs| ==> |dcs[i]| == Min(nlist, |dcs|)
      modifies this
      ensures Valid() && trained && size == |dcs| && nlist == Min(old(nlist), |dcs|) && nprobe == old(nprobe)
      ensures Filed(lists, dcs)
    {
      hide Filed, Closest;
      nlist := Min(nlist, |dcs|);
      lists, size := NoRows(nlist), 0;
      EmptyLists(nlist);
      NoneFiled(nlist);
      assert dcs[..0] == [];
      for i := 0 to |dcs|
        invariant Partition(lists, i) && |lists| == nlist == Min(old(nlist), |dcs|) && size == i &&
          nprobe == old(nprobe)
        invariant Filed(lists, dcs[..i])
      {
        var c := NearestCentroid(dcs[i]);
        ClosestIsOne(dcs[i], c);
        PutInList(lists, i, c);
        FileOne(lists, dcs, i, c);
        lists := lists[c := lists[c] + [i]];
        size := i + 1;
      }
      assert dcs[..|dcs|] == dcs;
      trained := true;
    }

    /** `add`. Before training its assertion fails; after training on no rows there is no
        nearest centroid. Otherwise the number of the new row is the number of rows there
        were, those of training included. */
    method Add(dc: seq<Dist>) returns (added: Option<nat>)
      requires Valid() && (trained ==> |dc| == nlist)
      modifies this
      ensures Valid() && trained == old(trained) && nlist == old(nlist) && nprobe == old(nprobe)
      ensures added.Some? <==> trained && nlist > 0
      ensures added.None? ==> size == old(size) && lists == old(lists)
      ensures added.Some? ==> added.value == old(size) && size == old(size) + 1 && exists c: nat ::
        Closest(dc, c) && c < |old(lists)| && lists == old(lists)[c := old(lists)[c] + [added.value]]
    {
      hide Closest, Partition;
      if !trained || nlist == 0 { return None; }
      var id := size;
      var c := NearestCentroid(dc);
      ClosestIsOne(dc, c);
      PutInList(lists, id, c);
      lists := lists[c := lists[c] + [id]];
      size := size + 1;
      added := Some(id);
    }

    /** `search`. order is the centroids as the partition by distance leaves them; the first
        of them are probed, and none of those is farther than any of the others. The result
        is the K nearest of the rows in the probed lists; when every list is probed, it is
        the K nearest of all rows. */
    method Search(dc: seq<Dist>, d: seq<Dist>, k: nat) returns (out: seq<Entry>, ghost order: seq<nat>)
      requires Valid() && trained && |d| == size && |dc| == |lists|
      ensures |lists| <= nprobe ==> Nearest(Ranked(d), k, out)
      ensures k == 0 || lists == [] ==> out == []
      ensures k > 0 && lists != [] ==>
        && multiset(order) == multiset(Count(|lists|)) && AllBelow(order, |lists|)
        && (forall p, q :: 0 <= p < nprobe <= q < |order| ==> dc[order[p]] <= dc[order[q]])
        && var ids := Flatten<nat>(Rows(lists, order[..Min(nprobe, |order|)]));
        && (forall i :: 0 <= i < |ids| ==> ids[i] < |d|) && Nearest(Listing(ids, d), k, out)
    {
      hide Nearest, Heap, Partition;
      if k == 0 || |dc| == 0 {
        NothingWanted(lists, d, k);
        return [], [];
      }
      var cd := new Entry[|dc|](c requires 0 <= c < |dc| => Entry(c, dc[c]));
      assert cd[..] == Ranked(dc);
      var probe := Min(nprobe, cd.Length);
      NthElement(cd, probe);
      order := IdsOf(cd[..]);
      CentroidOrder(dc, cd[..], probe);
      out := Probe(d, IdsOf(cd[..]), k);
    }

    // The scan of the probed lists.
    method Probe(d: seq<Dist>, order: seq<nat>, k: nat) returns (out: seq<Entry>)
      requires Valid() && trained && |d| == size && multiset(order) == multiset(Count(|lists|)) && k > 0
      ensures |lists| <= nprobe ==> Nearest(Ranked(d), k, out)
      ensures forall p :: 0 <= p < |order| ==> order[p] < |lists|
      ensures var ids := Flatten<nat>(Rows(lists, order[..Min(nprobe, |order|)]));
        (forall i :: 0 <= i < |ids| ==> ids[i] < |d|) && Nearest(Listing(ids, d), k, out)
    {
      hide Nearest, Heap;
      AllListsAllRows(lists, order, d);
      OrderSize(order, |lists|);
      assert order[..|order|] == order;
      var probe := Min(nprobe, |order|);
      ProbedRows(lists, order, probe, d);
      var heap: seq<Entry> := [];
      ProbedRows(lists, order, 0, d);
      NothingSeen(lists, order, d, k);
      for p := 0 to probe
        invariant Heap(heap) && ProbeOK(lists, order, p, d) &&
          Nearest(Listing(Flatten<nat>(Rows(lists, order[..p])), d), k, heap)
      {
        ProbedRows(lists, order, p + 1, d);
        assert order[..p + 1] == order[..p] + [order[p]];
        LastRow(lists, order[..p], order[p]);
        ListInRange(lists, order, p, d);
        heap := ScanList(lists[order[p]], d, k, heap, Listing(Flatten<nat>(Rows(lists, order[..p])), d));
        ListingConcat(Flatten<nat>(Rows(lists, order[..p])), lists[order[p]], d);
      }
      out := Drain(heap);
      NearestParts(Listing(Flatten<nat>(Rows(lists, order[..probe])), d), k, out);
      if probe == |order| {
        assert order[..probe] == order;
        NearestByMultiset(Listing(Flatten<nat>(Rows(lists, order)), d), Ranked(d), k, out);
      }
    }
  }

  /** What `compact` does with an index of this kind: it trains it on the live vectors, which
      fills it with them, and then adds each of them again. The numbers that come back are
      those of the second copies; they are the numbers 0, 1, … that the database asserts if
      and only if there are no live vectors. */
  method TrainThenAdd(index: IvfIndex, dcs: seq<seq<Dist>>) returns (ids: seq<nat>)
    requires index.nlist > 0 && forall i :: 0 <= i < |dcs| ==> |dcs[i]| == Min(index.nlist, |dcs|)
    modifies index
    ensures |ids| == |dcs| && forall i :: 0 <= i < |ids| ==> ids[i] == |dcs| + i
    ensures ids == Count(|dcs|) <==> dcs == []
  {
    ids := [];
    if dcs == [] { return; }
    index.Train(dcs);
    for i := 0 to |dcs|
      invariant index.Valid() && index.trained && index.nlist == Min(old(index.nlist), |dcs|) && index.size == |dcs| + i
      invariant |ids| == i && forall j :: 0 <= j < i ==> ids[j] == |dcs| + j
    {
      var added := index.Add(dcs[i]);
      ids := ids + [added.value];
    }
    assert ids[0] != Count(|dcs|)[0];
  }

  ghost predicate ProbeOK(lists: seq<seq<nat>>, order: seq<nat>, p: nat, d: seq<Dist>) {
    && p <= |order| && (forall q :: 0 <= q < |order| ==> order[q] < |lists|)
    && forall i :: 0 <= i < |Flatten<nat>(Rows(lists, order[..p]))| ==> Flatten<nat>(Rows(lists, order[..p]))[i] < |d|
  }

  lemma OrderSize(order: seq<nat>, n: nat)
    requires multiset(order) == multiset(Count(n))
    ensures |order| == n
  {
    assert |multiset(order)| == |order| && |multiset(Count(n))| == |Count(n)|;
  }

  lemma ProbedRows(lists: seq<seq<nat>>, order: seq<nat>, p: nat, d: seq<Dist>)
    requires ProbeOK(lists, order, |order|, d) && p <= |order|
    ensures ProbeOK(lists, order, p, d)
  {
    assert order[..|order|] == order;
    assert Rows(lists, order) == Rows(lists, order[..p]) + Rows(lists, order[p..]);
    FlattenConcat<nat>(Rows(lists, order[..p]), Rows(lists, order[p..]));
    var x, y := Flatten<nat>(Rows(lists, order[..p])), Flatten<nat>(Rows(lists, order[p..]));
    forall i | 0 <= i < |x| ensures x[i] < |d| { assert (x + y)[i] == x[i]; }
  }

  lemma ListInRange(lists: seq<seq<nat>>, order: seq<nat>, p: nat, d: seq<Dist>)
    requires p < |order| && ProbeOK(lists, order, p + 1, d)
    ensures forall i :: 0 <= i < |lists[order[p]]| ==> lists[order[p]][i] < |d|
  {
    assert order[..p + 1] == order[..p] + [order[p]];
    LastRow(lists, order[..p], order[p]);
    var x, y := Flatten<nat>(Rows(lists, order[..p])), lists[order[p]];
    forall i | 0 <= i < |y| ensures y[i] < |d| { assert (x + y)[|x| + i] == y[i]; }
  }

  lemma NothingSeen(lists: seq<seq<nat>>, order: seq<nat>, d: seq<Dist>, k: nat)
    requires ProbeOK(lists, order, 0, d)
    ensures Listing(Flatten<nat>(Rows(lists, order[..0])), d) == [] && Nearest([], k, []) && Heap([])
  {
    assert NoneNearer([], []);
  }

  lemma ListingConcat(a: seq<nat>, b: seq<nat>, d: seq<Dist>)
    requires forall i :: 0 <= i < |a| ==> a[i] < |d|
    requires forall i :: 0 <= i < |b| ==> b[i] < |d|
    ensures Listing(a + b, d) == Listing(a, d) + Listing(b, d)
  {
  }

  // The inner loop: the rows of one list.
  method ScanList(ids: seq<nat>, d: seq<Dist>, k: nat, before: seq<Entry>, ghost seen: seq<Entry>)
    returns (heap: seq<Entry>)
    requires k > 0 && forall i :: 0 <= i < |ids| ==> ids[i] < |d|
    requires Heap(before) && Nearest(seen, k, before)
    ensures Heap(heap) && Nearest(seen + Listing(ids, d), k, heap)
  {
    hide Nearest, Heap;
    heap := before;
    ghost var all := Listing(ids, d);
    assert seen + all[..0] == seen;
    for i := 0 to |ids|
      invariant Heap(heap) && Nearest(seen + all[..i], k, heap)
    {
      assert seen + all[..i + 1] == (seen + all[..i]) + [all[i]];
      heap := Offer(heap, Entry(ids[i], d[ids[i]]), k, seen + all[..i]);
    }
    assert all[..|ids|] == all;
  }

  method Offer(before: seq<Entry>, e: Entry, k: nat, ghost seen: seq<Entry>) returns (heap: seq<Entry>)
    requires k > 0 && Heap(before) && Nearest(seen, k, before)
    ensures Heap(heap) && Nearest(seen + [e], k, heap)
  {
    hide Nearest, Heap;
    heap := before;
    NearestParts(seen, k, before);
    if |heap| < k {
      heap := Emplace(heap, e);
      RoomStep(seen, k, before, e, heap);
    } else if e.dist < heap[|heap| - 1].dist {
      HeapWithoutTop(heap);
      heap := heap[..|heap| - 1];
      heap := Emplace(heap, e);
      SwapStep(seen, k, before, e, heap);
    } else {
      SkipStep(seen, k, before, e);
    }
  }

  lemma HeapWithoutTop(heap: seq<Entry>)
    requires Heap(heap) && heap != []
    ensures Heap(heap[..|heap| - 1])
  {
  }

  // The result is filled from its end while the heap is emptied.
  method Drain(before: seq<Entry>) returns (out: seq<Entry>)
    ensures out == before
  {
    var heap := before;
    out := [];
    while heap != []
      invariant heap + out == before
    {
      var n := |heap| - 1;
      assert heap == heap[..n] + [heap[n]];
      out := [heap[n]] + out;
      heap := heap[..n];
    }
  }
}
