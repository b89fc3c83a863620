/** Best-first search of one layer of the graph: two heaps, a visited set and an early exit. */
module HnswSearch {
  import opened Basics
  import opened TopK
  import opened FilteredSearch
  import opened IvfIndexes

  // The links of one layer, by node.
  type Layer = seq<seq<nat>>

  ghost predicate InRange(adj: Layer) {
    forall v, i :: 0 <= v < |adj| && 0 <= i < |adj[v]| ==> adj[v][i] < |adj|
  }

  // x can be reached from ep in so many hops.
  ghost predicate ReachIn(adj: Layer, ep: nat, x: nat, hops: nat)
    decreases hops
  {
    if hops == 0 then x == ep
    else exists y: nat :: y < |adj| && ReachIn(adj, ep, y, hops - 1) && x in adj[y]
  }

  ghost predicate Reaches(adj: Layer, ep: nat, x: nat) { exists hops: nat :: ReachIn(adj, ep, x, hops) }

  ghost function Reachable(adj: Layer, ep: nat): set<nat> {
    set x: nat | x < |adj| && Reaches(adj, ep, x)
  }

  lemma ReachOn(adj: Layer, ep: nat, y: nat, x: nat)
    requires y < |adj| && Reaches(adj, ep, y) && x in adj[y]
    ensures Reaches(adj, ep, x)
  {
    var hops: nat :| ReachIn(adj, ep, y, hops);
    assert ReachIn(adj, ep, x, hops + 1);
  }

  // A set with ep that no link leaves holds everything reachable.
  lemma {:induction false} ClosedHolds(adj: Layer, ep: nat, s: seq<nat>, x: nat, hops: nat)
    requires ep in s && (forall v: nat :: v in s ==> v < |adj| && forall i :: 0 <= i < |adj[v]| ==> adj[v][i] in s)
    requires ReachIn(adj, ep, x, hops)
    ensures x in s
    decreases hops
  {
    if hops > 0 {
      var y: nat :| y < |adj| && ReachIn(adj, ep, y, hops - 1) && x in adj[y];
      ClosedHolds(adj, ep, s, y, hops - 1);
      var i :| 0 <= i < |adj[y]| && adj[y][i] == x;
    }
  }

  // At least one result is kept, even with ef == 0.
  function Width(ef: nat): nat { if ef == 0 then 1 else ef }

  // ----- what holds of the visited nodes -----

  // Visited nodes: each once, in range, reachable from ep.
  ghost predicate SeenOK(adj: Layer, ep: nat, seen: seq<nat>) {
    && Distinct(seen) && ep in seen
    && forall i :: 0 <= i < |seen| ==> seen[i] < |adj| && Reaches(adj, ep, seen[i])
  }

  // Every link of v leads to a visited node.
  ghost predicate Expanded(adj: Layer, seen: seq<nat>, v: nat) {
    v < |adj| && forall i :: 0 <= i < |adj[v]| ==> adj[v][i] in seen
  }

  // Every result waits among the candidates, or was expanded.
  ghost predicate Pursued(adj: Layer, seen: seq<nat>, cands: seq<Entry>, found: seq<Entry>) {
    forall e :: e in found ==> e in cands || Expanded(adj, seen, e.id)
  }

  // Entries of the heaps are visited nodes with their distances.
  ghost predicate Measured(es: seq<Entry>, seen: seq<nat>, d: seq<Dist>) {
    forall e :: e in es ==> e.id in seen && e.id < |d| && e.dist == d[e.id]
  }

  lemma FirstSeen(adj: Layer, ep: nat)
    requires ep < |adj|
    ensures SeenOK(adj, ep, [ep])
  {
    assert ReachIn(adj, ep, ep, 0);
  }

  lemma SeeMore(adj: Layer, ep: nat, seen: seq<nat>, v: nat, x: nat)
    requires SeenOK(adj, ep, seen) && InRange(adj) && v in seen && v < |adj| && x in adj[v] && x !in seen
    ensures SeenOK(adj, ep, seen + [x]) && |seen| + 1 <= |adj|
    ensures |seen| + 1 <= |Reachable(adj, ep)|
  {
    ReachOn(adj, ep, v, x);
    var more := seen + [x];
    assert SeenOK(adj, ep, more);
    SeenBound(adj, ep, more);
  }

  lemma SeenBound(adj: Layer, ep: nat, seen: seq<nat>)
    requires SeenOK(adj, ep, seen)
    ensures |seen| <= |adj| && |seen| <= |Reachable(adj, ep)|
  {
    var s := set i: nat | i < |seen| :: seen[i];
    DistinctSize(seen);
    SubsetSize(s, Reachable(adj, ep));
    NumbersSize(|adj|);
    SubsetSize(s, Numbers(|adj|));
  }

  lemma {:induction false} DistinctSize(seen: seq<nat>)
    requires Distinct(seen)
    ensures |set i: nat | i < |seen| :: seen[i]| == |seen|
  {
    if seen != [] {
      var n := |seen| - 1;
      var rest := seen[..n];
      DistinctSize(rest);
      var small, big := set i: nat | i < |rest| :: rest[i], set i: nat | i < |seen| :: seen[i];
      assert forall i: nat :: i < n ==> rest[i] == seen[i];
      assert seen[n] !in small;
      forall x | x in big ensures x in small + {seen[n]} {
        var i: nat :| i < |seen| && seen[i] == x;
        assert i < n ==> rest[i] == x;
      }
      assert big == small + {seen[n]};
    }
  }

  // ----- one step of each heap -----

  // A nearer entry is pushed and the farthest one popped.
  lemma PushPop(seen: seq<Entry>, k: nat, heap: seq<Entry>, e: Entry, grown: seq<Entry>)
    requires Nearest(seen, k, heap) && 0 < k == |heap| && Heap(heap) && e.dist < heap[k - 1].dist
    requires Heap(grown) && multiset(grown) == multiset(heap) + multiset{e}
    ensures |grown| == k + 1 && Nearest(seen + [e], k, grown[..k]) && Heap(grown[..k])
    ensures forall x :: x in grown[..k] ==> x == e || x in heap
  {
    hide Nearest, Heap;
    assert |grown| == |multiset(grown)| && |heap| == |multiset(heap)|;
    var top, last := heap[k - 1], grown[k];
    TopStays(heap, e, grown);
    assert grown == grown[..k] + [last] && heap == heap[..k - 1] + [top];
    assert multiset(grown) == multiset(grown[..k]) + multiset{last};
    assert multiset(heap) == multiset(heap[..k - 1]) + multiset{top};
    var low, high := grown[..k], heap[..k - 1];
    forall x ensures multiset(low)[x] == (multiset(high) + multiset{e})[x] {
      assert multiset(grown)[x] == multiset(low)[x] + multiset{last}[x];
      assert multiset(heap)[x] == multiset(high)[x] + multiset{top}[x];
    }
    assert multiset(low) == multiset(high) + multiset{e};
    HeapPrefix(grown, k);
    SwapStep(seen, k, heap, e, grown[..k]);
    forall x | x in grown[..k] ensures x == e || x in heap {
      assert x in multiset(grown[..k]);
      assert x != e ==> x in heap[..k - 1];
    }
  }

  lemma HeapPrefix(heap: seq<Entry>, n: nat)
    requires Heap(heap) && n <= |heap|
    ensures Heap(heap[..n]) && Heap(heap[n..])
  {
  }

  lemma TopStays(heap: seq<Entry>, e: Entry, grown: seq<Entry>)
    requires Heap(heap) && heap != [] && e.dist < heap[|heap| - 1].dist
    requires Heap(grown) && multiset(grown) == multiset(heap) + multiset{e} && |grown| == |heap| + 1
    ensures grown[|grown| - 1] == heap[|heap| - 1]
  {
    var top, last := heap[|heap| - 1], grown[|grown| - 1];
    assert top in multiset(heap) && last in multiset(grown);
    assert top in multiset(grown);
    var i :| 0 <= i < |grown| && grown[i] == top;
    HeapAt(grown, i, |grown| - 1);
    if last != e {
      assert last in multiset(heap);
      var j :| 0 <= j < |heap| && heap[j] == last;
      HeapAt(heap, j, |heap| - 1);
    }
  }

  lemma Pushed(heap: seq<Entry>, e: Entry, grown: seq<Entry>)
    requires multiset(grown) == multiset(heap) + multiset{e}
    ensures |grown| == |heap| + 1 && forall x :: x in grown <==> x == e || x in heap
  {
    assert |grown| == |multiset(grown)| && |heap| == |multiset(heap)|;
    forall x ensures x in grown <==> x == e || x in heap {
      assert x in grown <==> x in multiset(grown);
      assert x in heap <==> x in multiset(heap);
    }
  }

  /** One neighbour that was not visited before: it becomes a candidate and a result if there
      is room, or if it is nearer than the farthest result. */
  method Visit(d: seq<Dist>, ef: nat, x: nat, cands: seq<Entry>, found: seq<Entry>, ghost seen: seq<nat>)
    returns (cands': seq<Entry>, found': seq<Entry>)
    requires x < |d| && forall i :: 0 <= i < |seen| ==> seen[i] < |d|
    requires Heap(cands) && Heap(found) && found != [] && Nearest(Listing(seen, d), Width(ef), found)
    ensures Heap(cands') && Heap(found') && found' != []
    ensures Listing(seen + [x], d) == Listing(seen, d) + [Entry(x, d[x])]
    ensures Nearest(Listing(seen + [x], d), Width(ef), found')
    ensures forall e :: e in cands ==> e in cands'
    ensures forall e :: e in cands' ==> e in cands || e == Entry(x, d[x])
    ensures forall e :: e in found' ==> e in found || (e == Entry(x, d[x]) && e in cands')
    ensures |cands'| <= |cands| + 1
  {
    hide Heap, Nearest;
    var e := Entry(x, d[x]);
    ListingConcat(seen, [x], d);
    assert Listing([x], d) == [e];
    NearestParts(Listing(seen, d), Width(ef), found);
    if |found| < ef || e.dist < found[|found| - 1].dist {
      cands' := Emplace(cands, e);
      Pushed(cands, e, cands');
      found' := Emplace(found, e);
      Pushed(found, e, found');
      if |found| < Width(ef) {
        RoomStep(Listing(seen, d), Width(ef), found, e, found');
      } else {
        PushPop(Listing(seen, d), Width(ef), found, e, found');
      }
      if |found'| > ef { found' := found'[..|found'| - 1]; }
    } else {
      SkipStep(Listing(seen, d), Width(ef), found, e);
      cands', found' := cands, found;
    }
  }

  /** The state of a search: the visited nodes, the candidates and the results so far, which
      are the nearest of the visited. */
  ghost predicate State(adj: Layer, d: seq<Dist>, ep: nat, ef: nat, visited: set<nat>, cands: seq<Entry>,
                        found: seq<Entry>, seen: seq<nat>)
  {
    && SeenOK(adj, ep, seen) && (forall x :: x in visited <==> x in seen)
    && Heap(cands) && Heap(found) && found != []
    && (forall i :: 0 <= i < |seen| ==> seen[i] < |d|)
    && Nearest(Listing(seen, d), Width(ef), found)
    && Measured(cands, seen, d) && Measured(found, seen, d)
  }

  /** The loop over the neighbours of one expanded node. */
  method VisitAll(adj: Layer, d: seq<Dist>, ep: nat, ef: nat, c: nat, visited0: set<nat>, cands0: seq<Entry>,
                  found0: seq<Entry>, ghost seen0: seq<nat>)
    returns (visited: set<nat>, cands: seq<Entry>, found: seq<Entry>, ghost seen: seq<nat>)
    requires |d| == |adj| && InRange(adj) && State(adj, d, ep, ef, visited0, cands0, found0, seen0) && c in seen0
    requires forall e :: e in found0 ==> e in cands0 || Expanded(adj, seen0, e.id) || e.id == c
    ensures State(adj, d, ep, ef, visited, cands, found, seen) && Pursued(adj, seen, cands, found) && seen0 <= seen
    ensures |seen| == |seen0| ==> |cands| <= |cands0|
  {
    hide Heap, Nearest, Reaches, Distinct;
    visited, cands, found, seen := visited0, cands0, found0, seen0;
    var nbrs := adj[c];
    for i := 0 to |nbrs|
      invariant State(adj, d, ep, ef, visited, cands, found, seen) && seen0 <= seen
      invariant forall j :: 0 <= j < i ==> nbrs[j] in seen
      invariant forall e :: e in found ==> e in cands || Expanded(adj, seen, e.id) || e.id == c
      invariant |seen| == |seen0| ==> |cands| <= |cands0|
    {
      var x := nbrs[i];
      if x !in visited {
        ghost var was, before := seen, found;
        SeeMore(adj, ep, seen, c, x);
        visited := visited + {x};
        cands, found := Visit(d, ef, x, cands, found, seen);
        seen := seen + [x];
        ExpandedMore(adj, was, x);
      }
    }
  }

  lemma ExpandedMore(adj: Layer, seen: seq<nat>, x: nat)
    ensures forall v: nat :: Expanded(adj, seen, v) ==> Expanded(adj, seen + [x], v)
    ensures forall y :: y in seen ==> y in seen + [x]
  {
  }

  // ----- the whole search -----

  // Results farther than every candidate were all expanded.
  lemma NothingLeft(adj: Layer, seen: seq<nat>, cands: seq<Entry>, found: seq<Entry>)
    requires Heap(cands) && Heap(found) && found != [] && Pursued(adj, seen, cands, found)
    requires cands == [] || cands[0].dist > found[|found| - 1].dist
    ensures forall e :: e in found ==> Expanded(adj, seen, e.id)
  {
    hide Heap, Expanded;
    HeapEnds(found);
    if cands != [] { HeapEnds(cands); }
  }

  lemma HeapEnds(heap: seq<Entry>)
    requires Heap(heap) && heap != []
    ensures forall e :: e in heap ==> heap[0].dist <= e.dist <= heap[|heap| - 1].dist
  {
    forall e | e in heap ensures heap[0].dist <= e.dist <= heap[|heap| - 1].dist {
      var i :| 0 <= i < |heap| && heap[i] == e;
      HeapAt(heap, 0, i);
      HeapAt(heap, i, |heap| - 1);
    }
  }

  lemma FoundOnce(seen: seq<nat>, d: seq<Dist>, k: nat, found: seq<Entry>)
    requires Distinct(seen) && (forall i :: 0 <= i < |seen| ==> seen[i] < |d|) && Nearest(Listing(seen, d), k, found)
    ensures Distinct(IdsOf(found)) && forall i :: 0 <= i < |found| ==>
      found[i].id in seen && found[i].dist == d[found[i].id]
  {
    forall i | 0 <= i < |found| ensures found[i].id in seen && found[i].dist == d[found[i].id] {
      ListingOnce(seen, d, found[i]);
      assert found[i] in multiset(found);
    }
    forall i, j | 0 <= i < j < |found| ensures found[i].id != found[j].id {
      if found[i] == found[j] {
        Twice(found, i, j);
        ListingOnce(seen, d, found[i]);
      }
    }
  }

  // With room for everything reachable, what was visited is everything reachable.
  lemma WideIsExact(adj: Layer, ep: nat, d: seq<Dist>, ef: nat, seen: seq<nat>, found: seq<Entry>)
    requires |d| == |adj| && SeenOK(adj, ep, seen) && Nearest(Listing(seen, d), Width(ef), found)
    requires forall e :: e in found ==> Expanded(adj, seen, e.id)
    requires |Reachable(adj, ep)| <= ef
    ensures forall x: nat :: x in IdsOf(found) <==> x in Reachable(adj, ep)
  {
    hide Nearest, ReachIn;
    SeenBound(adj, ep, seen);
    WholeHits(Listing(seen, d), Width(ef), found);
    FoundOnce(seen, d, Width(ef), found);
    forall v: nat | v in seen ensures Expanded(adj, seen, v) && v in IdsOf(found) {
      var i :| 0 <= i < |seen| && seen[i] == v;
      assert Listing(seen, d)[i] in multiset(Listing(seen, d));
      assert Listing(seen, d)[i] in found;
      var j :| 0 <= j < |found| && found[j] == Listing(seen, d)[i];
      assert IdsOf(found)[j] == v;
    }
    forall x: nat | x in Reachable(adj, ep) ensures x in seen {
      var hops: nat :| ReachIn(adj, ep, x, hops);
      ClosedHolds(adj, ep, seen, x, hops);
    }
    forall x: nat | x in IdsOf(found) ensures x in Reachable(adj, ep) {
      var j :| 0 <= j < |found| && found[j].id == x;
      var i :| 0 <= i < |seen| && seen[i] == x;
    }
  }

  // What a search of a layer comes back with.
  ghost predicate Searched(adj: Layer, d: seq<Dist>, ep: nat, ef: nat, result: seq<nat>, found: seq<Entry>,
                           seen: seq<nat>)
  {
    && SeenOK(adj, ep, seen) && (forall i :: 0 <= i < |seen| ==> seen[i] < |d|)
    && Nearest(Listing(seen, d), Width(ef), found)
    && result != [] && |result| == |found|
    && (forall i :: 0 <= i < |result| ==> result[i] == found[|found| - 1 - i].id && Expanded(adj, seen, result[i]))
  }

  /** `search_layer`. It ends; its results are the ef nearest of the nodes it visited,
      farthest first; every link of a result was followed; and with ef at least the number
      of nodes reachable from ep, the results are exactly those nodes. */
  method SearchLayer(adj: Layer, d: seq<Dist>, ep: nat, ef: nat)
    returns (result: seq<nat>, ghost found: seq<Entry>, ghost seen: seq<nat>)
    requires |d| == |adj| && InRange(adj) && ep < |adj|
    ensures SeenOK(adj, ep, seen) && forall i :: 0 <= i < |seen| ==> seen[i] < |d|
    ensures Nearest(Listing(seen, d), Width(ef), found)
    ensures result != [] && |result| == |found| && forall i :: 0 <= i < |result| ==>
      result[i] == found[|found| - 1 - i].id
    ensures Distinct(result)
    ensures forall i :: 0 <= i < |result| ==>
      result[i] in seen && result[i] in Reachable(adj, ep) && Expanded(adj, seen, result[i])
    ensures |Reachable(adj, ep)| <= ef ==> forall x: nat :: x in result <==> x in Reachable(adj, ep)
  {
    hide State, Nearest, Reachable, Expanded, Pursued, SeenOK, InRange;
    var visited: set<nat> := {ep};
    var start := Entry(ep, d[ep]);
    var cands, best := [start], [start];
    seen := [ep];
    StartState(adj, d, ep, ef);
    while cands != []
      invariant State(adj, d, ep, ef, visited, cands, best, seen) && Pursued(adj, seen, cands, best)
      invariant |seen| <= |adj|
      decreases |adj| - |seen|, |cands|
    {
      PopNearest(adj, d, ep, ef, visited, cands, best, seen);
      var nearest := cands[0];
      if nearest.dist > best[|best| - 1].dist { break; }
      cands := cands[1..];
      visited, cands, best, seen := VisitAll(adj, d, ep, ef, nearest.id, visited, cands, best, seen);
      StateBound(adj, d, ep, ef, visited, cands, best, seen);
    }
    found := best;
    result := DrainIds(best);
    Finish(adj, d, ep, ef, visited, cands, best, seen, result);
  }

  lemma StateBound(adj: Layer, d: seq<Dist>, ep: nat, ef: nat, visited: set<nat>, cands: seq<Entry>, found: seq<Entry>,
                   seen: seq<nat>)
    requires State(adj, d, ep, ef, visited, cands, found, seen)
    ensures |seen| <= |adj|
  {
    SeenBound(adj, ep, seen);
  }

  lemma Finish(adj: Layer, d: seq<Dist>, ep: nat, ef: nat, visited: set<nat>, cands: seq<Entry>, found: seq<Entry>,
               seen: seq<nat>, result: seq<nat>)
    requires |d| == |adj| && State(adj, d, ep, ef, visited, cands, found, seen) && Pursued(adj, seen, cands, found)
    requires found != [] ==> cands == [] || cands[0].dist > found[|found| - 1].dist
    requires |result| == |found| && forall i :: 0 <= i < |result| ==> result[i] == found[|found| - 1 - i].id
    ensures SeenOK(adj, ep, seen) && forall i :: 0 <= i < |seen| ==> seen[i] < |d|
    ensures Nearest(Listing(seen, d), Width(ef), found) && result != [] && Distinct(result)
    ensures forall i :: 0 <= i < |result| ==>
      result[i] in seen && result[i] in Reachable(adj, ep) && Expanded(adj, seen, result[i])
    ensures |Reachable(adj, ep)| <= ef ==> forall x: nat :: x in result <==> x in Reachable(adj, ep)
  {
    hide Heap, Nearest, Reaches, Expanded, Pursued;
    NothingLeft(adj, seen, cands, found);
    FoundOnce(seen, d, Width(ef), found);
    Backwards(found, result);
    if |Reachable(adj, ep)| <= ef { WideIsExact(adj, ep, d, ef, seen, found); }
    forall i | 0 <= i < |result|
      ensures result[i] in seen && result[i] in Reachable(adj, ep) && Expanded(adj, seen, result[i])
    {
      var e := found[|found| - 1 - i];
      assert e in found;
      var j :| 0 <= j < |seen| && seen[j] == e.id;
    }
  }

  lemma StartState(adj: Layer, d: seq<Dist>, ep: nat, ef: nat)
    requires ep < |d| == |adj|
    ensures var start := [Entry(ep, d[ep])];
      State(adj, d, ep, ef, {ep}, start, start, [ep]) && Pursued(adj, [ep], start, start)
  {
    FirstSeen(adj, ep);
    assert Listing([ep], d) == [Entry(ep, d[ep])];
    assert NoneNearer([Entry(ep, d[ep])], [Entry(ep, d[ep])]);
  }

  lemma PopNearest(adj: Layer, d: seq<Dist>, ep: nat, ef: nat, visited: set<nat>, cands: seq<Entry>, found: seq<Entry>,
                   seen: seq<nat>)
    requires cands != [] && State(adj, d, ep, ef, visited, cands, found, seen) && Pursued(adj, seen, cands, found)
    ensures found != [] && State(adj, d, ep, ef, visited, cands[1..], found, seen) && cands[0].id in seen
    ensures forall e :: e in found ==> e in cands[1..] || Expanded(adj, seen, e.id) || e.id == cands[0].id
  {
    hide Nearest, SeenOK, Expanded;
    assert cands == [cands[0]] + cands[1..];
  }

  // The ids of a heap as it is emptied: farthest first.
  method DrainIds(before: seq<Entry>) returns (ids: seq<nat>)
    ensures |ids| == |before| && forall i :: 0 <= i < |ids| ==> ids[i] == before[|before| - 1 - i].id
  {
    var heap := before;
    ids := [];
    while heap != []
      invariant heap <= before && |ids| == |before| - |heap|
      invariant forall i :: 0 <= i < |ids| ==> ids[i] == before[|before| - 1 - i].id
    {
      ids := ids + [heap[|heap| - 1].id];
      heap := heap[..|heap| - 1];
    }
  }

  lemma Backwards(found: seq<Entry>, ids: seq<nat>)
    requires |ids| == |found| && forall i :: 0 <= i < |ids| ==> ids[i] == found[|found| - 1 - i].id
    ensures forall x :: x in ids <==> x in IdsOf(found)
    ensures Distinct(IdsOf(found)) ==> Distinct(ids)
  {
    var n := |ids|;
    forall x | x in IdsOf(found) ensures x in ids {
      var i :| 0 <= i < n && IdsOf(found)[i] == x;
      assert ids[n - 1 - i] == x;
    }
    forall x | x in ids ensures x in IdsOf(found) {
      var i :| 0 <= i < n && ids[i] == x;
      assert IdsOf(found)[n - 1 - i] == x;
    }
    if Distinct(IdsOf(found)) {
      forall i, j | 0 <= i < j < n ensures ids[i] != ids[j] {
        assert IdsOf(found)[n - 1 - j] != IdsOf(found)[n - 1 - i];
      }
    }
  }
}
