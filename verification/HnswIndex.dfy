/** The navigable graph as it is built by one thread: nodes on layers, links between nodes of
    a layer, and a bound on how many links a node keeps. */
module HnswIndexes {
  import opened Basics
  import W = WalRecords
  import opened TopK
  import opened FilteredSearch
  import opened HnswSearch

  type Vec = seq<W.Word>

  // A node and its links on each of its layers.
  datatype Node = Node(data: Vec, links: seq<seq<nat>>)

  // M, Mmax, Mmax0, ef and the width of searches.
  datatype Config = Config(m: nat, mMax: nat, mMax0: nat, ef: nat, efSearch: nat)

  function Cap(cfg: Config, lc: nat): nat { if lc == 0 then cfg.mMax0 else cfg.mMax }

  // Node v exists on layer lc.
  predicate Tall(nodes: seq<Node>, v: nat, lc: nat) { v < |nodes| && lc < |nodes[v].links| }

  // A list of links that v may have on layer lc: other nodes of that layer, each once, and
  // no more than the layer allows.
  ghost predicate ListOK(cfg: Config, nodes: seq<Node>, v: nat, lc: nat, list: seq<nat>) {
    && Distinct(list) && |list| <= Cap(cfg, lc)
    && forall i :: 0 <= i < |list| ==> list[i] != v && Tall(nodes, list[i], lc)
  }

  ghost predicate GraphOK(cfg: Config, nodes: seq<Node>) {
    && (forall v :: 0 <= v < |nodes| ==> |nodes[v].links| > 0)
    && forall v, lc :: 0 <= v < |nodes| && 0 <= lc < |nodes[v].links| ==> ListOK(cfg, nodes, v, lc, nodes[v].links[lc])
  }

  // The same nodes on the same layers, with other links perhaps.
  ghost predicate SameShape(a: seq<Node>, b: seq<Node>) {
    |a| == |b| && forall v :: 0 <= v < |a| ==> a[v].data == b[v].data && |a[v].links| == |b[v].links|
  }

  // Only links of layer lc differ.
  ghost predicate SameElsewhere(a: seq<Node>, b: seq<Node>, lc: nat) {
    SameShape(a, b) &&
    forall v, k :: 0 <= v < |a| && 0 <= k < |a[v].links| && k != lc ==> a[v].links[k] == b[v].links[k]
  }

  // No node links to id on layer lc.
  ghost predicate Unlinked(nodes: seq<Node>, id: nat, lc: nat) {
    forall v :: 0 <= v < |nodes| && lc < |nodes[v].links| ==> id !in nodes[v].links[lc]
  }

  // The links of layer lc, none for nodes that do not reach it.
  function Adj(nodes: seq<Node>, lc: nat): (adj: Layer)
    ensures |adj| == |nodes|
    ensures forall v :: 0 <= v < |adj| ==> adj[v] == if lc < |nodes[v].links| then nodes[v].links[lc] else []
  {
    seq(|nodes|, v requires 0 <= v < |nodes| => if lc < |nodes[v].links| then nodes[v].links[lc] else [])
  }

  lemma AdjInRange(cfg: Config, nodes: seq<Node>, lc: nat)
    requires GraphOK(cfg, nodes)
    ensures InRange(Adj(nodes, lc))
  {
    forall v, i | 0 <= v < |nodes| && 0 <= i < |Adj(nodes, lc)[v]| ensures Adj(nodes, lc)[v][i] < |nodes| {
      assert ListOK(cfg, nodes, v, lc, nodes[v].links[lc]);
    }
  }

  lemma StepTall(cfg: Config, nodes: seq<Node>, lc: nat, id: nat, y: nat, x: nat)
    requires GraphOK(cfg, nodes) && Unlinked(nodes, id, lc) && y < |nodes| && x in Adj(nodes, lc)[y]
    ensures Tall(nodes, x, lc) && x != id
  {
    assert ListOK(cfg, nodes, y, lc, nodes[y].links[lc]);
    var list := nodes[y].links[lc];
    var i :| 0 <= i < |list| && list[i] == x;
  }

  // Whatever a search on layer lc reaches exists on that layer, and is not the new node.
  lemma ReachTall(cfg: Config, nodes: seq<Node>, lc: nat, ep: nat, id: nat, x: nat, hops: nat)
    requires GraphOK(cfg, nodes) && Tall(nodes, ep, lc) && ep != id && Unlinked(nodes, id, lc)
    requires ReachIn(Adj(nodes, lc), ep, x, hops)
    ensures Tall(nodes, x, lc) && x != id
  {
    hide GraphOK, Unlinked;
    if hops > 0 {
      var adj := Adj(nodes, lc);
      var y: nat :| y < |adj| && ReachIn(adj, ep, y, hops - 1) && x in adj[y];
      StepTall(cfg, nodes, lc, id, y, x);
    }
  }

  function WithLinks(nodes: seq<Node>, v: nat, lc: nat, list: seq<nat>): seq<Node>
    requires Tall(nodes, v, lc)
  {
    nodes[v := nodes[v].(links := nodes[v].links[lc := list])]
  }

  lemma SetLinks(cfg: Config, nodes: seq<Node>, v: nat, lc: nat, list: seq<nat>)
    requires GraphOK(cfg, nodes) && Tall(nodes, v, lc) && ListOK(cfg, nodes, v, lc, list)
    ensures var nodes' := WithLinks(nodes, v, lc, list);
      && GraphOK(cfg, nodes') && SameElsewhere(nodes, nodes', lc)
      && nodes'[v].links[lc] == list
      && forall u :: 0 <= u < |nodes| && u != v ==> nodes'[u] == nodes[u]
  {
    hide Distinct;
    var nodes' := WithLinks(nodes, v, lc, list);
    forall u, k | 0 <= u < |nodes'| && 0 <= k < |nodes'[u].links|
      ensures ListOK(cfg, nodes', u, k, nodes'[u].links[k])
    {
      var was := if u == v && k == lc then list else nodes[u].links[k];
      assert ListOK(cfg, nodes, u, k, was);
      assert nodes'[u].links[k] == was;
      forall i | 0 <= i < |was| ensures Tall(nodes', was[i], k) { assert Tall(nodes, was[i], k); }
    }
  }

  // A part of a list is as good as the list.
  lemma PartOK(cfg: Config, nodes: seq<Node>, v: nat, lc: nat, whole: seq<nat>, part: seq<nat>)
    requires Distinct(whole) && multiset(part) <= multiset(whole) && |part| <= Cap(cfg, lc)
    requires forall i :: 0 <= i < |whole| ==> whole[i] != v && Tall(nodes, whole[i], lc)
    ensures ListOK(cfg, nodes, v, lc, part)
  {
    forall i | 0 <= i < |part| ensures part[i] in whole { assert part[i] in multiset(part); }
    forall i, j | 0 <= i < j < |part| ensures part[i] != part[j] {
      var x, y := part[..j], part[j..];
      assert part == x + y && y[0] == part[j] && x[i] == part[i];
      assert multiset(part) == multiset(x) + multiset(y);
      assert part[i] in multiset(x) && part[j] in multiset(y);
      OnceIn(whole, part[j]);
    }
  }

  // One more link: it fits, or the list is over its cap by one.
  lemma OneMore(cfg: Config, nodes: seq<Node>, e: nat, lc: nat, id: nat)
    requires GraphOK(cfg, nodes) && Tall(nodes, e, lc) && Tall(nodes, id, lc) && e != id && id !in nodes[e].links[lc]
    ensures var list := nodes[e].links[lc] + [id];
      && Distinct(list) && (forall i :: 0 <= i < |list| ==> list[i] != e && Tall(nodes, list[i], lc))
      && (|list| <= Cap(cfg, lc) ==> ListOK(cfg, nodes, e, lc, list))
  {
    assert ListOK(cfg, nodes, e, lc, nodes[e].links[lc]);
  }

  lemma ElsewhereChain(a: seq<Node>, b: seq<Node>, c: seq<Node>, lc: nat)
    requires SameElsewhere(a, b, lc) && SameElsewhere(b, c, lc)
    ensures SameElsewhere(a, c, lc)
  {
  }

  // A node that stands alone for now: on its layers without links, and nobody links to it.
  ghost predicate Lonely(nodes: seq<Node>, id: nat, top: int) {
    forall k: nat :: k <= top ==> Unlinked(nodes, id, k)
  }

  lemma StillLonely(a: seq<Node>, b: seq<Node>, id: nat, lc: nat)
    requires Lonely(a, id, lc) && SameElsewhere(a, b, lc)
    ensures Lonely(b, id, lc - 1)
  {
    forall k: nat | k <= lc - 1 ensures Unlinked(b, id, k) {
      assert Unlinked(a, id, k);
      forall v | 0 <= v < |b| && k < |b[v].links|
        ensures id !in b[v].links[k]
      {
        assert a[v].links[k] == b[v].links[k];
      }
    }
  }

  lemma LonelyAt(nodes: seq<Node>, id: nat, top: int, lc: nat)
    requires Lonely(nodes, id, top) && lc <= top
    ensures Unlinked(nodes, id, lc)
  {
  }

  lemma LonelyLess(nodes: seq<Node>, id: nat, top: int, lc: int)
    requires Lonely(nodes, id, top) && lc <= top
    ensures Lonely(nodes, id, lc)
  {
  }

  lemma LinksExist(cfg: Config, nodes: seq<Node>)
    requires GraphOK(cfg, nodes)
    ensures forall v :: 0 <= v < |nodes| ==> |nodes[v].links| > 0
  {
  }

  lemma ResultsTall(cfg: Config, nodes: seq<Node>, lc: nat, ep: nat, id: nat, ws: seq<nat>)
    requires GraphOK(cfg, nodes) && Tall(nodes, ep, lc) && ep != id && Unlinked(nodes, id, lc)
    requires forall i :: 0 <= i < |ws| ==> ws[i] in Reachable(Adj(nodes, lc), ep)
    ensures forall i :: 0 <= i < |ws| ==> ws[i] < |nodes| && ws[i] != id && Tall(nodes, ws[i], lc)
  {
    hide GraphOK, Unlinked;
    forall i | 0 <= i < |ws| ensures ws[i] < |nodes| && ws[i] != id && Tall(nodes, ws[i], lc) {
      assert ws[i] in Reachable(Adj(nodes, lc), ep);
      var hops: nat :| ReachIn(Adj(nodes, lc), ep, ws[i], hops);
      ReachTall(cfg, nodes, lc, ep, id, ws[i], hops);
    }
  }

  lemma ListParts(cfg: Config, nodes: seq<Node>, v: nat, lc: nat, list: seq<nat>)
    requires ListOK(cfg, nodes, v, lc, list)
    ensures Distinct(list) && forall i :: 0 <= i < |list| ==> list[i] != v && Tall(nodes, list[i], lc)
    ensures forall i, j :: 0 <= i < j < |list| ==> list[i] != list[j]
  {
  }

  lemma SameHeights(a: seq<Node>, b: seq<Node>, lc: nat)
    requires SameElsewhere(a, b, lc)
    ensures SameShape(a, b) && forall v: nat, k: nat :: Tall(a, v, k) <==> Tall(b, v, k)
    ensures forall v, k :: 0 <= v < |a| && 0 <= k < |a[v].links| && k != lc ==> b[v].links[k] == a[v].links[k]
  {
  }

  lemma OthersUnlinked(was: seq<Node>, nodes: seq<Node>, id: nat, lc: nat, list: seq<nat>)
    requires Tall(was, id, lc) && nodes == WithLinks(was, id, lc, list) && Unlinked(was, id, lc)
    requires forall i :: 0 <= i < |list| ==> list[i] != id && Tall(was, list[i], lc)
    ensures forall i :: 0 <= i < |list| ==> Tall(nodes, list[i], lc) && id !in nodes[list[i]].links[lc]
  {
    forall i | 0 <= i < |list| ensures Tall(nodes, list[i], lc) && id !in nodes[list[i]].links[lc] {
      assert Tall(was, list[i], lc);
    }
  }

  // Nobody links to a number that is not a node.
  lemma NobodyBeyond(cfg: Config, nodes: seq<Node>, lc: nat)
    requires GraphOK(cfg, nodes)
    ensures Unlinked(nodes, |nodes|, lc)
  {
    forall v | 0 <= v < |nodes| && lc < |nodes[v].links| ensures |nodes| !in nodes[v].links[lc] {
      assert ListOK(cfg, nodes, v, lc, nodes[v].links[lc]);
    }
  }

  lemma SeenIsReachable(adj: Layer, ep: nat, seen: seq<nat>, ws: seq<nat>)
    requires SeenOK(adj, ep, seen) && (forall x: nat :: x in ws <==> x in Reachable(adj, ep))
    requires forall i :: 0 <= i < |ws| ==> ws[i] in seen
    ensures forall x: nat :: x in seen <==> x in Reachable(adj, ep)
  {
    hide Reaches;
    forall x: nat | x in Reachable(adj, ep) ensures x in seen { assert x in ws; }
  }

  lemma SeenDistinct(adj: Layer, ep: nat, seen: seq<nat>)
    requires SeenOK(adj, ep, seen)
    ensures Distinct(seen)
  {
  }

  // The results with their distances, in whatever order.
  lemma WsListing(ws: seq<nat>, found: seq<Entry>, seen: seq<nat>, d: seq<Dist>, k: nat)
    requires |ws| == |found| && forall i :: 0 <= i < |ws| ==> ws[i] == found[|found| - 1 - i].id
    requires Distinct(seen) && (forall i :: 0 <= i < |seen| ==> seen[i] < |d|) && Nearest(Listing(seen, d), k, found)
    ensures forall i :: 0 <= i < |ws| ==> ws[i] < |d|
    ensures multiset(Listing(ws, d)) == multiset(found)
  {
    FoundOnce(seen, d, k, found);
    forall i | 0 <= i < |ws| ensures ws[i] < |d| && Entry(ws[i], d[ws[i]]) == found[|found| - 1 - i] {
      assert ws[i] in seen;
    }
    ReverseMultiset(found, Listing(ws, d));
  }

  lemma {:induction false} ReverseMultiset(a: seq<Entry>, b: seq<Entry>)
    requires |a| == |b| && forall i :: 0 <= i < |b| ==> b[i] == a[|a| - 1 - i]
    ensures multiset(b) == multiset(a)
    decreases |a|
  {
    if a != [] {
      var n := |a| - 1;
      ReverseMultiset(a[1..], b[..n]);
      assert a == [a[0]] + a[1..] && b == b[..n] + [b[n]];
    }
  }

  lemma SameNearest(all: seq<Entry>, k: nat, found: seq<Entry>, sorted: seq<Entry>)
    requires Nearest(all, k, found) && Rising(sorted) && multiset(sorted) == multiset(found)
    ensures Nearest(all, k, sorted)
  {
    assert |multiset(sorted)| == |sorted| && |multiset(found)| == |found|;
    forall e, o | multiset(all)[e] > multiset(sorted)[e] && o in sorted ensures o.dist <= e.dist {
      assert o in multiset(sorted);
      assert o in found;
    }
    assert NoneNearer(all, sorted);
  }

  // The first of the nearest are the nearest.
  lemma CutNearest(all: seq<Entry>, wide: nat, k: nat, sorted: seq<Entry>, out: seq<Entry>)
    requires Nearest(all, wide, sorted) && wide >= k && out == sorted[..Min(k, |sorted|)]
    ensures Nearest(all, k, out)
  {
    hide Rising;
    NearestParts(all, wide, sorted);
    PrefixOf(sorted, |out|);
    forall e, o | multiset(all)[e] > multiset(out)[e] && o in out ensures o.dist <= e.dist {
      if multiset(sorted)[e] > multiset(out)[e] {
        TailIsFarther(sorted, |out|, e, o);
      } else {
        assert o in sorted;
        LeftOut(all, wide, sorted, e, o);
      }
    }
    assert NoneNearer(all, out);
    IsNearest(all, k, out);
  }

  function Empties(n: nat): (r: seq<seq<nat>>)
    ensures |r| == n && forall i :: 0 <= i < n ==> r[i] == []
  {
    seq(n, _ => [])
  }

  // A new node fits into the graph before it is linked.
  lemma NewNode(cfg: Config, nodes: seq<Node>, vec: Vec, l: nat, top: int)
    requires GraphOK(cfg, nodes)
    ensures var more := nodes + [Node(vec, Empties(l + 1))];
      GraphOK(cfg, more) && Lonely(more, |nodes|, top)
  {
    var more := nodes + [Node(vec, Empties(l + 1))];
    forall v, lc | 0 <= v < |more| && 0 <= lc < |more[v].links| ensures ListOK(cfg, more, v, lc, more[v].links[lc]) {
      if v < |nodes| { OldList(cfg, nodes, more, v, lc); }
    }
    forall k: nat, v | 0 <= v < |more| && k < |more[v].links| ensures |nodes| !in more[v].links[k] {
      if v < |nodes| { assert ListOK(cfg, nodes, v, k, nodes[v].links[k]); }
    }
  }

  lemma OldList(cfg: Config, nodes: seq<Node>, more: seq<Node>, v: nat, lc: nat)
    requires GraphOK(cfg, nodes) && nodes <= more && Tall(nodes, v, lc)
    ensures ListOK(cfg, more, v, lc, more[v].links[lc])
  {
    assert ListOK(cfg, nodes, v, lc, nodes[v].links[lc]);
    var list := nodes[v].links[lc];
    forall i | 0 <= i < |list| ensures Tall(more, list[i], lc) { assert Tall(nodes, list[i], lc); }
  }

  lemma OnceIn(s: seq<nat>, x: nat)
    requires Distinct(s)
    ensures multiset(s)[x] <= 1
    decreases |s|
  {
    if s != [] {
      var rest: seq<nat>, last: nat := s[..|s| - 1], s[|s| - 1];
      OnceIn(rest, x);
      assert s == rest + [last];
      assert multiset(s)[x] == multiset(rest)[x] + multiset{last}[x];
      assert last !in rest;
    }
  }

  lemma SplitLast(s: seq<nat>, i: nat)
    requires i < |s|
    ensures s[..i + 1] == s[..i] + [s[i]] && multiset(s[..i + 1]) == multiset(s[..i]) + multiset{s[i]}
  {
    assert s[..i + 1] == s[..i] + [s[i]];
  }

  lemma MoveOver(a: seq<nat>, b: seq<nat>, e: nat)
    ensures multiset(a + [e]) + multiset(b) == multiset(a) + multiset(b) + multiset{e}
    ensures multiset(b) + multiset(a + [e]) == multiset(a) + multiset(b) + multiset{e}
    ensures multiset(a) + multiset(b) == multiset(b) + multiset(a)
  {
  }

  // The order of the candidates by distance to q.
  lemma SortedOrder(cands: seq<nat>, d: seq<Dist>, sorted: seq<Entry>)
    requires forall i :: 0 <= i < |cands| ==> cands[i] < |d|
    requires Rising(sorted) && multiset(sorted) == multiset(Listing(cands, d))
    ensures var order := IdsOf(sorted);
      && multiset(order) == multiset(cands) && |order| == |cands|
      && (forall i :: 0 <= i < |order| ==> order[i] < |d|)
      && forall i, j :: 0 <= i <= j < |order| ==> d[order[i]] <= d[order[j]]
  {
    SameIds(sorted, Listing(cands, d));
    assert IdsOf(Listing(cands, d)) == cands;
    assert |multiset(IdsOf(sorted))| == |IdsOf(sorted)| && |multiset(cands)| == |cands|;
    forall i | 0 <= i < |sorted| ensures sorted[i].id < |d| && sorted[i].dist == d[sorted[i].id] {
      assert sorted[i] in multiset(sorted);
      assert sorted[i] in Listing(cands, d);
    }
  }

  lemma NearestIn(cands: seq<nat>, d: seq<Dist>) returns (x: nat)
    requires cands != [] && forall i :: 0 <= i < |cands| ==> cands[i] < |d|
    ensures x in cands && x < |d| && forall i :: 0 <= i < |cands| ==> d[x] <= d[cands[i]]
  {
    x := cands[0];
    for i := 1 to |cands|
      invariant x in cands && x < |d| && forall j :: 0 <= j < i ==> d[x] <= d[cands[j]]
    {
      if d[cands[i]] < d[x] { x := cands[i]; }
    }
  }

  // What is topped up comes from what was discarded.
  method TopUp(picked: seq<nat>, discarded: seq<nat>, m: nat) returns (r: seq<nat>)
    requires |picked| <= m
    ensures r == picked + discarded[..Min(m - |picked|, |discarded|)]
  {
    r := picked;
    var j := 0;
    while j < |discarded| && |r| < m
      invariant j <= |discarded| && r == picked + discarded[..j] && |picked| + j <= m
    {
      r := r + [discarded[j]];
      j := j + 1;
    }
  }

  // ----- what linking a node means -----

  function Data(nodes: seq<Node>): (data: seq<Vec>)
    ensures |data| == |nodes| && forall v :: 0 <= v < |data| ==> data[v] == nodes[v].data
  {
    seq(|nodes|, v requires 0 <= v < |nodes| => nodes[v].data)
  }

  function DistancesTo(dist: (Vec, Vec) -> Dist, data: seq<Vec>, q: Vec): (d: seq<Dist>)
    ensures |d| == |data| && forall v :: 0 <= v < |d| ==> d[v] == dist(q, data[v])
  {
    seq(|data|, v requires 0 <= v < |data| => dist(q, data[v]))
  }

  // None of the picked is nearer to a later one than q is.
  ghost predicate Spread(dist: (Vec, Vec) -> Dist, data: seq<Vec>, q: Vec, picked: seq<nat>) {
    forall i, j :: 0 <= i < j < |picked| && picked[i] < |data| && picked[j] < |data| ==>
      dist(data[picked[j]], data[picked[i]]) >= dist(q, data[picked[j]])
  }

  // Ever farther from q.
  ghost predicate Climbs(dist: (Vec, Vec) -> Dist, data: seq<Vec>, q: Vec, ids: seq<nat>) {
    forall i, j :: 0 <= i < j < |ids| && ids[i] < |data| && ids[j] < |data| ==>
      dist(q, data[ids[i]]) <= dist(q, data[ids[j]])
  }

  // One of the picked is nearer to e than q is, and no farther from q than e is.
  ghost predicate Shadowed(dist: (Vec, Vec) -> Dist, data: seq<Vec>, q: Vec, picked: seq<nat>, e: nat) {
    e < |data| && (exists p :: p in picked && p < |data| && dist(data[e], data[p]) < dist(q, data[e]) &&
                     dist(q, data[p]) <= dist(q, data[e]))
  }

  // e is as far from q as the first n of r are, where these are all there is room for.
  ghost predicate Beyond(dist: (Vec, Vec) -> Dist, data: seq<Vec>, q: Vec, m: nat, r: seq<nat>, n: nat, e: nat) {
    n == m && e < |data| &&
    (0 < n <= |r| && r[n - 1] < |data| ==> dist(q, data[r[n - 1]]) <= dist(q, data[e]))
  }

  // The first n of r are spread, nearest first; every other candidate is in the shadow of one
  // of them, or beyond the last there is room for. The rest of r are the nearest of the others.
  ghost predicate SpreadTo(dist: (Vec, Vec) -> Dist, data: seq<Vec>, q: Vec, cands: seq<nat>, m: nat, r: seq<nat>,
                           n: nat)
  {
    && n <= |r| && n <= m && (m > 0 ==> n > 0) && Spread(dist, data, q, r[..n]) && Climbs(dist, data, q, r[..n])
    && (forall e :: e in cands && e !in r[..n] ==>
          Shadowed(dist, data, q, r[..n], e) || Beyond(dist, data, q, m, r, n, e))
    && Climbs(dist, data, q, r[n..])
    && forall x, e :: x in r[n..] && e in cands && e !in r && x < |data| && e < |data| ==>
         dist(q, data[x]) <= dist(q, data[e])
  }

  ghost predicate ClosestOf(dist: (Vec, Vec) -> Dist, data: seq<Vec>, q: Vec, cands: seq<nat>, x: nat) {
    x < |data| && forall i :: 0 <= i < |cands| && cands[i] < |data| ==> dist(q, data[x]) <= dist(q, data[cands[i]])
  }

  /** What `select_neighbors` keeps: everything if there is room, otherwise as many as there is
      room for, led by the picked ones; in any case a nearest one. */
  ghost predicate Selected(dist: (Vec, Vec) -> Dist, data: seq<Vec>, q: Vec, cands: seq<nat>, m: nat, r: seq<nat>) {
    && multiset(r) <= multiset(cands) && |r| == Min(m, |cands|)
    && (|cands| <= m ==> r == cands)
    && (m > 0 && cands != [] ==> exists x :: x in r && ClosestOf(dist, data, q, cands, x))
    && (|cands| > m ==> exists n: nat :: SpreadTo(dist, data, q, cands, m, r, n))
  }

  // The list that node v has on layer lc after a back-link to id.
  ghost predicate BackLinked(cfg: Config, dist: (Vec, Vec) -> Dist, was: seq<Node>, now: seq<Node>, id: nat, v: nat,
                             lc: nat)
  {
    && Tall(was, v, lc) && Tall(now, v, lc)
    && Selected(dist, Data(was), was[v].data, was[v].links[lc] + [id], Cap(cfg, lc), now[v].links[lc])
  }

  // The first of the nearest in a list.
  ghost predicate ClosestFirst(dist: (Vec, Vec) -> Dist, data: seq<Vec>, q: Vec, ws: seq<nat>, x: nat) {
    && (forall i :: 0 <= i < |ws| ==> ws[i] < |data| && x < |data| && dist(q, data[x]) <= dist(q, data[ws[i]]))
    && exists j :: 0 <= j < |ws| && ws[j] == x && x < |data| &&
         forall i :: 0 <= i < j ==> ws[i] < |data| && dist(q, data[x]) < dist(q, data[ws[i]])
  }

  // The greedy search of layer lc from one node ends at another: the nearest of its results.
  ghost predicate Descends(dist: (Vec, Vec) -> Dist, nodes: seq<Node>, q: Vec, lc: nat, from: nat, to: nat) {
    exists ws, found, seen ::
      && Searched(Adj(nodes, lc), DistancesTo(dist, Data(nodes), q), from, 1, ws, found, seen)
      && ClosestFirst(dist, Data(nodes), q, ws, to)
  }

  // eps lists where the layers are entered, from `top` down: layer lc at eps[top - lc].
  ghost predicate DescendedOn(dist: (Vec, Vec) -> Dist, nodes: seq<Node>, q: Vec, lc: nat, top: int, eps: seq<nat>) {
    lc <= top && top - lc + 1 < |eps| && Descends(dist, nodes, q, lc, eps[top - lc], eps[top - lc + 1])
  }

  /** The way down from the entry point: each layer above `bottom` is searched from where it is
      entered, and the nearest node found there is where the next one is. */
  ghost predicate Descent(dist: (Vec, Vec) -> Dist, nodes: seq<Node>, q: Vec, entry: nat, top: int, bottom: int,
                          eps: seq<nat>)
  {
    eps != [] && eps[0] == entry && forall lc: nat :: bottom < lc <= top ==> DescendedOn(dist, nodes, q, lc, top, eps)
  }

  // A search of layer lc from one node, by the new node: a selection among the results is its
  // list, and the nearest of them is where the next layer is entered.
  ghost predicate Candidates(cfg: Config, dist: (Vec, Vec) -> Dist, was: seq<Node>, id: nat, lc: nat, from: nat,
                             to: nat, list: seq<nat>)
  {
    id < |was| && Tall(was, from, lc) && from != id && exists ws, found, seen ::
      && Searched(Adj(was, lc), DistancesTo(dist, Data(was), was[id].data), from, cfg.ef, ws, found, seen)
      && ClosestFirst(dist, Data(was), was[id].data, ws, to)
      && Selected(dist, Data(was), was[id].data, ws, cfg.m, list)
  }

  /** A new node was linked on layer lc: its list is a selection among the results of a search
      of the layer; the nodes in it were linked back; nobody else's list changed. */
  ghost predicate Linked(cfg: Config, dist: (Vec, Vec) -> Dist, was: seq<Node>, now: seq<Node>, id: nat, lc: nat,
                         from: nat, to: nat)
  {
    && SameShape(was, now) && Tall(was, id, lc)
    && Candidates(cfg, dist, was, id, lc, from, to, now[id].links[lc])
    && (forall v :: v in now[id].links[lc] ==> BackLinked(cfg, dist, was, now, id, v, lc))
    && forall v :: 0 <= v < |was| && v != id && lc < |was[v].links| && v !in now[id].links[lc] ==>
         now[v].links[lc] == was[v].links[lc]
  }

  // On a layer that is entered where eps says.
  ghost predicate LinkedOn(cfg: Config, dist: (Vec, Vec) -> Dist, was: seq<Node>, now: seq<Node>, id: nat, lc: nat,
                           top: int, eps: seq<nat>)
  {
    lc <= top && top - lc + 1 < |eps| && Linked(cfg, dist, was, now, id, lc, eps[top - lc], eps[top - lc + 1])
  }

  // How wide the search of the lowest layer is.
  function SearchWidth(cfg: Config, k: nat): nat { if cfg.efSearch >= k then cfg.efSearch else k }

  /** What a search that enters the lowest layer at ep visits: all that can be reached, if the
      search is wide enough for it. */
  ghost predicate Visits(cfg: Config, dist: (Vec, Vec) -> Dist, nodes: seq<Node>, q: Vec, k: nat, ep: nat,
                         seen: seq<nat>)
  {
    var adj, d, width := Adj(nodes, 0), DistancesTo(dist, Data(nodes), q), SearchWidth(cfg, k);
    && ep < |nodes| && SeenOK(adj, ep, seen) && (forall i :: 0 <= i < |seen| ==> seen[i] < |nodes|)
    && (exists ws, found :: Searched(adj, d, ep, width, ws, found, seen))
    && (|Reachable(adj, ep)| <= width ==> forall x: nat :: x in seen <==> x in Reachable(adj, ep))
  }

  lemma VisitsAre(cfg: Config, dist: (Vec, Vec) -> Dist, nodes: seq<Node>, q: Vec, k: nat, ep: nat, ws: seq<nat>,
                    found: seq<Entry>, seen: seq<nat>, sorted: seq<Entry>, out: seq<Entry>)
    requires ep < |nodes| && forall i :: 0 <= i < |seen| ==> seen[i] < |nodes|
    requires var adj, d, width := Adj(nodes, 0), DistancesTo(dist, Data(nodes), q), SearchWidth(cfg, k);
      && Searched(adj, d, ep, width, ws, found, seen)
      && (forall i :: 0 <= i < |ws| ==> ws[i] in seen)
      && (|Reachable(adj, ep)| <= width ==> forall x: nat :: x in ws <==> x in Reachable(adj, ep))
    requires Rising(sorted) && multiset(sorted) == multiset(found) && out == sorted[..Min(k, |sorted|)]
    ensures Visits(cfg, dist, nodes, q, k, ep, seen)
    ensures Nearest(Listing(seen, DistancesTo(dist, Data(nodes), q)), k, out)
  {
    hide Nearest, SeenOK, Expanded, Reachable, Rising, Listing, DistancesTo;
    var adj, d, width := Adj(nodes, 0), DistancesTo(dist, Data(nodes), q), SearchWidth(cfg, k);
    if |Reachable(adj, ep)| <= width { SeenIsReachable(adj, ep, seen, ws); }
    SameNearest(Listing(seen, d), Width(width), found, sorted);
    CutNearest(Listing(seen, d), Width(width), k, sorted, out);
  }

  lemma VisitsOnce(cfg: Config, dist: (Vec, Vec) -> Dist, nodes: seq<Node>, q: Vec, k: nat, ep: nat, seen: seq<nat>)
    requires Visits(cfg, dist, nodes, q, k, ep, seen)
    ensures Distinct(seen) && forall i :: 0 <= i < |seen| ==> seen[i] < |nodes|
  {
    hide Searched;
  }

  lemma DescentLonger(dist: (Vec, Vec) -> Dist, nodes: seq<Node>, q: Vec, entry: nat, top: int, lc: nat,
                      eps: seq<nat>, next: nat)
    requires Descent(dist, nodes, q, entry, top, lc, eps) && lc <= top && |eps| == top - lc + 1
    requires Descends(dist, nodes, q, lc, eps[top - lc], next)
    ensures Descent(dist, nodes, q, entry, top, lc - 1, eps + [next])
  {
    hide Descends;
    var eps' := eps + [next];
    forall k: nat | lc - 1 < k <= top ensures DescendedOn(dist, nodes, q, k, top, eps') {
      if k > lc { assert DescendedOn(dist, nodes, q, k, top, eps); }
    }
  }

  lemma DescentStays(dist: (Vec, Vec) -> Dist, nodes: seq<Node>, q: Vec, entry: nat, top: int, bottom: int,
                     eps: seq<nat>, end: int, more: seq<nat>)
    requires Descent(dist, nodes, q, entry, top, bottom, eps) && eps <= more && bottom <= end
    ensures Descent(dist, nodes, q, entry, top, end, more)
  {
    hide Descends;
    forall k: nat | end < k <= top ensures DescendedOn(dist, nodes, q, k, top, more) {
      assert DescendedOn(dist, nodes, q, k, top, eps);
    }
  }

  lemma DescentStarts(dist: (Vec, Vec) -> Dist, nodes: seq<Node>, q: Vec, entry: nat, top: int)
    ensures Descent(dist, nodes, q, entry, top, top, [entry])
  {
  }

  ghost predicate SameLayer(a: seq<Node>, b: seq<Node>, lc: nat) {
    SameShape(a, b) && forall v :: 0 <= v < |a| && lc < |a[v].links| ==> a[v].links[lc] == b[v].links[lc]
  }

  lemma LayerIs(a: seq<Node>, b: seq<Node>, lc: nat)
    requires SameLayer(a, b, lc)
    ensures Data(a) == Data(b) && Adj(a, lc) == Adj(b, lc)
    ensures forall v: nat :: Tall(a, v, lc) <==> Tall(b, v, lc)
  {
  }

  // Linking on a layer is about that layer alone.
  lemma LinkedLayer(cfg: Config, dist: (Vec, Vec) -> Dist, was: seq<Node>, a: seq<Node>, b: seq<Node>, now: seq<Node>,
                    id: nat, lc: nat, from: nat, to: nat)
    requires SameLayer(was, a, lc) && Linked(cfg, dist, a, b, id, lc, from, to) && SameLayer(b, now, lc)
    ensures Linked(cfg, dist, was, now, id, lc, from, to)
  {
    hide Selected, Searched, ClosestFirst;
    LayerIs(was, a, lc);
    LayerIs(b, now, lc);
    assert Candidates(cfg, dist, was, id, lc, from, to, now[id].links[lc]);
    forall v | v in now[id].links[lc] ensures BackLinked(cfg, dist, was, now, id, v, lc) {
      assert BackLinked(cfg, dist, a, b, id, v, lc);
    }
  }

  lemma BackLinkedFrom(cfg: Config, dist: (Vec, Vec) -> Dist, was: seq<Node>, before: seq<Node>, now: seq<Node>,
                       id: nat, v: nat, lc: nat)
    requires SameShape(was, before) && v < |was| && was[v] == before[v]
    requires BackLinked(cfg, dist, before, now, id, v, lc)
    ensures BackLinked(cfg, dist, was, now, id, v, lc)
  {
    hide Selected;
    assert Data(was) == Data(before);
  }

  lemma SameBackLink(cfg: Config, dist: (Vec, Vec) -> Dist, was: seq<Node>, before: seq<Node>, now: seq<Node>, id: nat,
                     v: nat, lc: nat)
    requires BackLinked(cfg, dist, was, before, id, v, lc) && v < |now| && now[v] == before[v]
    ensures BackLinked(cfg, dist, was, now, id, v, lc)
  {
  }

  lemma AllLayersSame(a: seq<Node>)
    ensures forall k: nat :: SameLayer(a, a, k)
  {
  }

  lemma SameThroughout(nodes: seq<Node>, lc: nat)
    ensures SameElsewhere(nodes, nodes, lc)
  {
  }

  // Own list set, the nodes in it linked back: the node is linked.
  lemma AllLinked(cfg: Config, dist: (Vec, Vec) -> Dist, start: seq<Node>, was: seq<Node>, now: seq<Node>, id: nat,
                  lc: nat, from: nat, to: nat, list: seq<nat>)
    requires Tall(start, id, lc) && was == WithLinks(start, id, lc, list) && SameShape(was, now) && id !in list
    requires Candidates(cfg, dist, start, id, lc, from, to, list)
    requires forall v :: v in list ==> BackLinked(cfg, dist, was, now, id, v, lc)
    requires forall v :: 0 <= v < |now| && v !in list ==> now[v] == was[v]
    ensures Linked(cfg, dist, start, now, id, lc, from, to)
  {
    hide Selected, Candidates;
    assert now[id].links[lc] == list;
    assert Data(was) == Data(start);
    forall v | v in list ensures BackLinked(cfg, dist, start, now, id, v, lc) {
      assert BackLinked(cfg, dist, was, now, id, v, lc);
      assert was[v] == start[v];
    }
  }

  lemma OtherLayer(a: seq<Node>, b: seq<Node>, lc: nat, k: nat)
    requires SameElsewhere(a, b, lc) && k != lc
    ensures SameLayer(a, b, k)
  {
  }

  // One more layer is linked, the others are as they were.
  lemma LayersFollow(cfg: Config, dist: (Vec, Vec) -> Dist, was: seq<Node>, before: seq<Node>, now: seq<Node>, id: nat,
                     lc: nat, mid: nat, top: int, eps: seq<nat>, next: nat)
    requires SameElsewhere(before, now, lc) && lc <= mid <= top && |eps| == top - lc + 1
    requires Linked(cfg, dist, before, now, id, lc, eps[top - lc], next)
    requires forall k: nat :: lc < k <= mid ==> LinkedOn(cfg, dist, was, before, id, k, top, eps)
    requires forall k: nat :: k <= lc || k > mid ==> SameLayer(was, before, k)
    ensures forall k: nat :: lc <= k <= mid ==> LinkedOn(cfg, dist, was, now, id, k, top, eps + [next])
    ensures forall k: nat :: k < lc || k > mid ==> SameLayer(was, now, k)
  {
    hide SameElsewhere, SameLayer, Linked;
    AllLayersSame(was);
    AllLayersSame(now);
    forall k: nat | lc <= k <= mid ensures LinkedOn(cfg, dist, was, now, id, k, top, eps + [next]) {
      if k == lc {
        LinkedLayer(cfg, dist, was, before, now, now, id, lc, eps[top - lc], next);
      } else {
        OtherLayer(before, now, lc, k);
        assert LinkedOn(cfg, dist, was, before, id, k, top, eps);
        LinkedLayer(cfg, dist, was, was, before, now, id, k, eps[top - k], eps[top - k + 1]);
      }
    }
    forall k: nat | k < lc || k > mid ensures SameLayer(was, now, k) {
      OtherLayer(before, now, lc, k);
      LayerChain(was, before, now, k);
    }
  }

  lemma LayerChain(a: seq<Node>, b: seq<Node>, c: seq<Node>, lc: nat)
    requires SameLayer(a, b, lc) && SameLayer(b, c, lc)
    ensures SameLayer(a, c, lc)
  {
  }

  lemma SpreadMore(dist: (Vec, Vec) -> Dist, data: seq<Vec>, q: Vec, picked: seq<nat>, e: nat)
    requires Spread(dist, data, q, picked) && e < |data|
    requires forall i :: 0 <= i < |picked| ==>
      picked[i] < |data| && dist(data[e], data[picked[i]]) >= dist(q, data[e])
    ensures Spread(dist, data, q, picked + [e])
  {
  }

  lemma InShadow(dist: (Vec, Vec) -> Dist, data: seq<Vec>, q: Vec, order: seq<nat>, n: nat, picked: seq<nat>)
    requires Climbs(dist, data, q, order) && n < |order| && order[n] < |data|
    requires forall e :: e in picked ==> exists k :: 0 <= k < n && order[k] == e
    requires exists i ::
      0 <= i < |picked| && picked[i] < |data| && dist(data[order[n]], data[picked[i]]) < dist(q, data[order[n]])
    ensures Shadowed(dist, data, q, picked, order[n])
  {
    var i :| 0 <= i < |picked| && picked[i] < |data| && dist(data[order[n]], data[picked[i]]) < dist(q, data[order[n]]);
    assert picked[i] in picked;
    var k :| 0 <= k < n && order[k] == picked[i];
  }

  lemma OrderClimbs(dist: (Vec, Vec) -> Dist, data: seq<Vec>, q: Vec, order: seq<nat>)
    requires var d := DistancesTo(dist, data, q);
      && (forall i :: 0 <= i < |order| ==> order[i] < |d|)
      && forall i, j :: 0 <= i <= j < |order| ==> d[order[i]] <= d[order[j]]
    ensures Climbs(dist, data, q, order)
  {
  }

  lemma ShadowStays(dist: (Vec, Vec) -> Dist, data: seq<Vec>, q: Vec, picked: seq<nat>, e: nat, discarded: seq<nat>)
    requires forall x :: x in discarded ==> Shadowed(dist, data, q, picked, x)
    ensures forall x :: x in discarded ==> Shadowed(dist, data, q, picked + [e], x)
  {
    forall x | x in discarded ensures Shadowed(dist, data, q, picked + [e], x) {
      var p :| p in picked && p < |data| && dist(data[x], data[p]) < dist(q, data[x]) &&
        dist(q, data[p]) <= dist(q, data[x]);
      assert p in picked + [e];
    }
  }

  lemma FirstIsNearest(dist: (Vec, Vec) -> Dist, data: seq<Vec>, q: Vec, cands: seq<nat>, order: seq<nat>, r: seq<nat>)
    requires order != [] && multiset(order) == multiset(cands) && r != [] && r[0] == order[0]
    requires forall i :: 0 <= i < |order| ==> order[i] < |data|
    requires forall i :: 0 <= i < |cands| ==> cands[i] < |data|
    requires forall i :: 0 <= i < |order| ==> dist(q, data[order[0]]) <= dist(q, data[order[i]])
    ensures r[0] in r && ClosestOf(dist, data, q, cands, r[0])
  {
    forall i | 0 <= i < |cands| ensures dist(q, data[r[0]]) <= dist(q, data[cands[i]]) {
      assert cands[i] in multiset(cands);
      var j :| 0 <= j < |order| && order[j] == cands[i];
    }
  }

  lemma AllSelected(dist: (Vec, Vec) -> Dist, data: seq<Vec>, q: Vec, cands: seq<nat>, m: nat)
    requires |cands| <= m && forall i :: 0 <= i < |cands| ==> cands[i] < |data|
    ensures Selected(dist, data, q, cands, m, cands)
  {
    if cands != [] {
      var x := NearestIn(cands, DistancesTo(dist, data, q));
      assert ClosestOf(dist, data, q, cands, x);
    }
  }

  // Who was looked at was picked or discarded.
  lemma PickedOrNot(order: seq<nat>, n: nat, picked: seq<nat>, discarded: seq<nat>)
    requires n <= |order| && multiset(picked) + multiset(discarded) == multiset(order[..n])
    ensures forall k :: 0 <= k < n ==> order[k] in picked || order[k] in discarded
    ensures forall e :: e in picked || e in discarded ==> exists k :: 0 <= k < n && order[k] == e
  {
    forall k | 0 <= k < n ensures order[k] in picked || order[k] in discarded {
      assert order[..n][k] in multiset(order[..n]);
    }
    forall e | e in picked || e in discarded ensures exists k :: 0 <= k < n && order[k] == e {
      assert e in multiset(picked) + multiset(discarded);
      assert e in order[..n];
    }
  }

  lemma PickedIsPart(cands: seq<nat>, order: seq<nat>, n: nat, picked: seq<nat>, discarded: seq<nat>, taken: nat)
    requires n <= |order| && multiset(order) == multiset(cands) && taken <= |discarded|
    requires multiset(picked) + multiset(discarded) == multiset(order[..n])
    ensures multiset(picked + discarded[..taken]) <= multiset(cands)
    ensures |picked| + |discarded| == n && |order| == |cands|
  {
    assert order == order[..n] + order[n..] && discarded == discarded[..taken] + discarded[taken..];
    assert |multiset(order)| == |order| && |multiset(cands)| == |cands|;
    assert |multiset(picked) + multiset(discarded)| == |picked| + |discarded|;
    assert |multiset(order[..n])| == n;
  }

  // One more of a list that ever goes farther.
  lemma ClimbsMore(dist: (Vec, Vec) -> Dist, data: seq<Vec>, q: Vec, order: seq<nat>, n: nat, ids: seq<nat>)
    requires Climbs(dist, data, q, order) && n < |order| && Climbs(dist, data, q, ids)
    requires forall e :: e in ids ==> exists k :: 0 <= k < n && order[k] == e
    ensures Climbs(dist, data, q, ids + [order[n]])
  {
    var more := ids + [order[n]];
    forall i, j | 0 <= i < j < |more| && more[i] < |data| && more[j] < |data|
      ensures dist(q, data[more[i]]) <= dist(q, data[more[j]])
    {
      if j == |ids| {
        assert ids[i] in ids;
        var k :| 0 <= k < n && order[k] == ids[i];
      }
    }
  }

  // The first i of the order are told apart: the picked, and those in the shadow of a picked one.
  ghost predicate Parted(dist: (Vec, Vec) -> Dist, data: seq<Vec>, q: Vec, order: seq<nat>, i: nat, picked: seq<nat>,
                         discarded: seq<nat>)
  {
    && i <= |order| && multiset(picked) + multiset(discarded) == multiset(order[..i])
    && (forall j :: 0 <= j < |order| ==> order[j] < |data|) && Climbs(dist, data, q, order)
    && Spread(dist, data, q, picked) && Climbs(dist, data, q, picked) && Climbs(dist, data, q, discarded)
    && (forall j :: 0 <= j < |picked| ==> picked[j] < |data|)
    && forall x :: x in discarded ==> Shadowed(dist, data, q, picked, x)
  }

  lemma NoneParted(dist: (Vec, Vec) -> Dist, data: seq<Vec>, q: Vec, order: seq<nat>)
    requires (forall j :: 0 <= j < |order| ==> order[j] < |data|) && Climbs(dist, data, q, order)
    ensures Parted(dist, data, q, order, 0, [], [])
  {
  }

  lemma PickOne(dist: (Vec, Vec) -> Dist, data: seq<Vec>, q: Vec, order: seq<nat>, i: nat, picked: seq<nat>,
                discarded: seq<nat>)
    requires Parted(dist, data, q, order, i, picked, discarded) && i < |order|
    requires forall j :: 0 <= j < |picked| && picked[j] < |data| ==>
      dist(data[order[i]], data[picked[j]]) >= dist(q, data[order[i]])
    ensures Parted(dist, data, q, order, i + 1, picked + [order[i]], discarded)
  {
    hide Spread, Climbs, Shadowed;
    PickedOrNot(order, i, picked, discarded);
    SplitLast(order, i);
    SpreadMore(dist, data, q, picked, order[i]);
    ClimbsMore(dist, data, q, order, i, picked);
    ShadowStays(dist, data, q, picked, order[i], discarded);
    MoveOver(picked, discarded, order[i]);
  }

  lemma DropOne(dist: (Vec, Vec) -> Dist, data: seq<Vec>, q: Vec, order: seq<nat>, i: nat, picked: seq<nat>,
                discarded: seq<nat>)
    requires Parted(dist, data, q, order, i, picked, discarded) && i < |order|
    requires exists j ::
      0 <= j < |picked| && picked[j] < |data| && dist(data[order[i]], data[picked[j]]) < dist(q, data[order[i]])
    ensures Parted(dist, data, q, order, i + 1, picked, discarded + [order[i]])
  {
    hide Spread, Climbs, Shadowed;
    PickedOrNot(order, i, picked, discarded);
    SplitLast(order, i);
    InShadow(dist, data, q, order, i, picked);
    ClimbsMore(dist, data, q, order, i, discarded);
    MoveOver(discarded, picked, order[i]);
  }

  // What the two passes of the selection come to.
  lemma PicksSpread(dist: (Vec, Vec) -> Dist, data: seq<Vec>, q: Vec, cands: seq<nat>, order: seq<nat>, n: nat,
                    m: nat, picked: seq<nat>, discarded: seq<nat>, r: seq<nat>)
    requires multiset(order) == multiset(cands) && Parted(dist, data, q, order, n, picked, discarded)
    requires |picked| <= m && (|picked| == m || n == |order|) && (m > 0 ==> picked != [])
    requires r == picked + discarded[..Min(m - |picked|, |discarded|)]
    ensures SpreadTo(dist, data, q, cands, m, r, |picked|)
  {
    hide Spread, Shadowed, Beyond;
    var p := |picked|;
    assert r[..p] == picked && r[p..] == discarded[..|r| - p];
    forall e | e in cands && e !in picked
      ensures Shadowed(dist, data, q, picked, e) || Beyond(dist, data, q, m, r, p, e)
    {
      assert e in multiset(cands);
      assert e in order;
      var k :| 0 <= k < |order| && order[k] == e;
      if k >= n {
        LaterIsBeyond(dist, data, q, order, n, m, picked, discarded, r, k);
      } else {
        PickedOrNot(order, n, picked, discarded);
      }
    }
    forall x, e | x in r[p..] && e in cands && e !in r && x < |data| && e < |data|
      ensures dist(q, data[x]) <= dist(q, data[e])
    {
      FillIsNearest(dist, data, q, cands, order, n, m, picked, discarded, x, e);
    }
  }

  lemma FillIsNearest(dist: (Vec, Vec) -> Dist, data: seq<Vec>, q: Vec, cands: seq<nat>, order: seq<nat>, n: nat,
                      m: nat, picked: seq<nat>, discarded: seq<nat>, x: nat, e: nat)
    requires multiset(order) == multiset(cands) && Parted(dist, data, q, order, n, picked, discarded)
    requires |picked| <= m && (|picked| == m || n == |order|) && x < |data| && e < |data|
    requires var taken := Min(m - |picked|, |discarded|);
      x in discarded[..taken] && e in cands && e !in picked && e !in discarded[..taken]
    ensures dist(q, data[x]) <= dist(q, data[e])
  {
    hide Spread, Shadowed;
    var taken := Min(m - |picked|, |discarded|);
    PickedOrNot(order, n, picked, discarded);
    assert e in multiset(cands);
    assert e in order;
    var i :| 0 <= i < taken && discarded[i] == x;
    var j :| 0 <= j < |discarded| && discarded[j] == e;
    assert j >= taken;
  }

  lemma LaterIsBeyond(dist: (Vec, Vec) -> Dist, data: seq<Vec>, q: Vec, order: seq<nat>, n: nat, m: nat,
                      picked: seq<nat>, discarded: seq<nat>, r: seq<nat>, k: nat)
    requires n <= k < |order| && |picked| == m && picked <= r && Climbs(dist, data, q, order)
    requires forall i :: 0 <= i < |order| ==> order[i] < |data|
    requires multiset(picked) + multiset(discarded) == multiset(order[..n])
    ensures Beyond(dist, data, q, m, r, m, order[k])
  {
    PickedOrNot(order, n, picked, discarded);
    if m > 0 {
      assert r[m - 1] == picked[m - 1];
      assert picked[m - 1] in picked;
      var i :| 0 <= i < n && order[i] == picked[m - 1];
    }
  }

  class HnswIndex {
    const cfg: Config
    const dist: (Vec, Vec) -> Dist
    var nodes: seq<Node>
    var entry: nat
    var maxLayer: int

    /** The entry point stands on the top layer, and every list is as it may be. */
    ghost predicate Valid()
      reads this
    {
      && cfg.m <= cfg.mMax && cfg.m <= cfg.mMax0 && GraphOK(cfg, nodes)
      && maxLayer >= -1 && (maxLayer == -1 <==> nodes == [])
      && (nodes != [] ==> entry < |nodes| && |nodes[entry].links| == maxLayer + 1)
      && forall v :: 0 <= v < |nodes| ==> |nodes[v].links| <= maxLayer + 1
    }

    constructor (cfg: Config, dist: (Vec, Vec) -> Dist)
      requires cfg.m <= cfg.mMax && cfg.m <= cfg.mMax0
      ensures Valid() && nodes == [] && this.cfg == cfg && this.dist == dist
    {
      this.cfg, this.dist := cfg, dist;
      nodes, entry, maxLayer := [], 0, -1;
    }

    // `closest_`.
    method Closest(q: Vec, cands: seq<nat>) returns (best: nat)
      requires cands != [] && forall i :: 0 <= i < |cands| ==> cands[i] < |nodes|
      ensures best in cands && best < |nodes| && ClosestFirst(dist, Data(nodes), q, cands, best)
    {
      best := cands[0];
      ghost var at := 0;
      for i := 1 to |cands|
        invariant at < i && best == cands[at] < |nodes|
        invariant forall j :: 0 <= j < i ==> dist(q, nodes[best].data) <= dist(q, nodes[cands[j]].data)
        invariant forall j :: 0 <= j < at ==> dist(q, nodes[best].data) < dist(q, nodes[cands[j]].data)
      {
        if dist(q, nodes[cands[i]].data) < dist(q, nodes[best].data) { best, at := cands[i], i; }
      }
    }

    method CloserToQuery(q: Vec, e: nat, picked: seq<nat>) returns (closer: bool)
      requires e < |nodes| && forall i :: 0 <= i < |picked| ==> picked[i] < |nodes|
      ensures closer <==> forall i :: 0 <= i < |picked| ==>
        dist(nodes[e].data, nodes[picked[i]].data) >= dist(q, nodes[e].data)
    {
      for i := 0 to |picked|
        invariant forall j :: 0 <= j < i ==> dist(nodes[e].data, nodes[picked[j]].data) >= dist(q, nodes[e].data)
      {
        if dist(nodes[e].data, nodes[picked[i]].data) < dist(q, nodes[e].data) { return false; }
      }
      return true;
    }

    // The first pass of `select_neighbors`, over the candidates in order of distance; n were
    // looked at.
    method PickSpread(q: Vec, order: seq<nat>, m: nat) returns (picked: seq<nat>, discarded: seq<nat>, ghost n: nat)
      requires Climbs(dist, Data(nodes), q, order) && forall i :: 0 <= i < |order| ==> order[i] < |nodes|
      ensures |picked| <= m && (m > 0 && order != [] ==> picked != [] && picked[0] == order[0])
      ensures Parted(dist, Data(nodes), q, order, n, picked, discarded) && (|picked| == m || n == |order|)
    {
      hide Climbs, Parted;
      picked, discarded := [], [];
      var i := 0;
      NoneParted(dist, Data(nodes), q, order);
      while i < |order| && |picked| < m
        invariant |picked| <= i <= |order| && |picked| <= m && forall j :: 0 <= j < |picked| ==> picked[j] < |nodes|
        invariant Parted(dist, Data(nodes), q, order, i, picked, discarded)
        invariant i > 0 ==> picked != [] && picked[0] == order[0]
      {
        var closer := CloserToQuery(q, order[i], picked);
        if closer {
          PickOne(dist, Data(nodes), q, order, i, picked, discarded);
          picked := picked + [order[i]];
        } else {
          DropOne(dist, Data(nodes), q, order, i, picked, discarded);
          discarded := discarded + [order[i]];
        }
        i := i + 1;
      }
      n := i;
    }

    // `select_neighbors`.
    method SelectNeighbors(q: Vec, cands: seq<nat>, m: nat) returns (r: seq<nat>)
      requires forall i :: 0 <= i < |cands| ==> cands[i] < |nodes|
      ensures Selected(dist, Data(nodes), q, cands, m, r)
    {
      hide Climbs, Spread, Shadowed, SpreadTo, ClosestOf;
      ghost var data := Data(nodes);
      var d := DistancesTo(dist, Data(nodes), q);
      if |cands| <= m {
        AllSelected(dist, data, q, cands, m);
        return cands;
      }
      var sorted := SortByDistance(Listing(cands, d));
      SortedOrder(cands, d, sorted);
      var order := IdsOf(sorted);
      OrderClimbs(dist, data, q, order);
      var picked, discarded, n := PickSpread(q, order, m);
      r := TopUp(picked, discarded, m);
      PickedIsPart(cands, order, n, picked, discarded, |r| - |picked|);
      PicksSpread(dist, data, q, cands, order, n, m, picked, discarded, r);
      if m > 0 { FirstIsNearest(dist, data, q, cands, order, r); }
    }

    // ----- linking -----

    // One back-link, pruned when there are too many.
    method BackLink(id: nat, e: nat, lc: nat)
      requires GraphOK(cfg, nodes) && Tall(nodes, e, lc) && Tall(nodes, id, lc) && e != id && id !in nodes[e].links[lc]
      modifies this`nodes
      ensures GraphOK(cfg, nodes) && SameElsewhere(old(nodes), nodes, lc)
      ensures forall u :: 0 <= u < |nodes| && u != e ==> nodes[u] == old(nodes)[u]
      ensures BackLinked(cfg, dist, old(nodes), nodes, id, e, lc)
    {
      hide GraphOK, ListOK, Distinct, SpreadTo, ClosestOf;
      OneMore(cfg, nodes, e, lc, id);
      var conn := nodes[e].links[lc] + [id];
      var cap := if lc == 0 then cfg.mMax0 else cfg.mMax;
      if |conn| > cap {
        ghost var whole := conn;
        conn := SelectNeighbors(nodes[e].data, conn, cap);
        PartOK(cfg, nodes, e, lc, whole, conn);
      } else {
        AllSelected(dist, Data(nodes), nodes[e].data, conn, Cap(cfg, lc));
      }
      SetLinks(cfg, nodes, e, lc, conn);
      nodes := WithLinks(nodes, e, lc, conn);
    }

    // The nodes that a new node links to are linked back.
    method LinkBack(id: nat, neighbours: seq<nat>, lc: nat)
      requires GraphOK(cfg, nodes) && Tall(nodes, id, lc) && Distinct(neighbours)
      requires forall j :: 0 <= j < |neighbours| ==>
        neighbours[j] != id && Tall(nodes, neighbours[j], lc) && id !in nodes[neighbours[j]].links[lc]
      modifies this`nodes
      ensures GraphOK(cfg, nodes) && SameElsewhere(old(nodes), nodes, lc)
      ensures forall v :: v in neighbours ==> BackLinked(cfg, dist, old(nodes), nodes, id, v, lc)
      ensures forall v :: 0 <= v < |nodes| && v !in neighbours ==> nodes[v] == old(nodes)[v]
    {
      hide GraphOK, SameElsewhere, BackLinked;
      ghost var was := nodes;
      SameThroughout(nodes, lc);
      for i := 0 to |neighbours|
        invariant GraphOK(cfg, nodes) && SameElsewhere(was, nodes, lc) && SameShape(was, nodes)
        invariant forall j :: 0 <= j < i ==> BackLinked(cfg, dist, was, nodes, id, neighbours[j], lc)
        invariant forall v :: 0 <= v < |nodes| && v !in neighbours[..i] ==> nodes[v] == was[v]
      {
        ghost var before := nodes;
        assert neighbours[i] !in neighbours[..i];
        BackLink(id, neighbours[i], lc);
        SameHeights(before, nodes, lc);
        ElsewhereChain(was, before, nodes, lc);
        BackLinkedFrom(cfg, dist, was, before, nodes, id, neighbours[i], lc);
        forall j | 0 <= j < i ensures BackLinked(cfg, dist, was, nodes, id, neighbours[j], lc) {
          SameBackLink(cfg, dist, was, before, nodes, id, neighbours[j], lc);
        }
        assert neighbours[..i + 1] == neighbours[..i] + [neighbours[i]];
      }
      assert neighbours[..|neighbours|] == neighbours;
    }

    // The links of a new node on one layer, both ways. The next layer is entered at the
    // nearest node found here.
    method LinkLayer(id: nat, ep: nat, lc: nat) returns (next: nat)
      requires cfg.m <= Cap(cfg, lc) && GraphOK(cfg, nodes) && Tall(nodes, ep, lc) && ep != id && Tall(nodes, id, lc)
      requires Unlinked(nodes, id, lc)
      modifies this`nodes
      ensures GraphOK(cfg, nodes) && SameElsewhere(old(nodes), nodes, lc) && Tall(nodes, next, lc) && next != id
      ensures Tall(nodes, id, lc) && (cfg.m > 0 ==> nodes[id].links[lc] != [])
      ensures Linked(cfg, dist, old(nodes), nodes, id, lc, ep, next)
    {
      hide GraphOK, ListOK, SpreadTo, ClosestOf, Nearest, SeenOK, Expanded, Reachable, InRange, WithLinks,
        SameElsewhere, BackLinked, Linked, Distinct, ClosestFirst;
      ghost var start := nodes;
      var q := nodes[id].data;
      AdjInRange(cfg, nodes, lc);
      var d := DistancesTo(dist, Data(nodes), q);
      var ws, found, seen := SearchLayer(Adj(nodes, lc), d, ep, cfg.ef);
      ResultsTall(cfg, nodes, lc, ep, id, ws);
      assert Searched(Adj(start, lc), DistancesTo(dist, Data(start), start[id].data), ep, cfg.ef, ws, found, seen);
      var neighbours := SelectNeighbors(q, ws, cfg.m);
      next := Closest(q, ws);
      assert Candidates(cfg, dist, start, id, lc, ep, next, neighbours);
      PartOK(cfg, nodes, id, lc, ws, neighbours);
      ListParts(cfg, nodes, id, lc, neighbours);
      SetLinks(cfg, nodes, id, lc, neighbours);
      ghost var was := WithLinks(nodes, id, lc, neighbours);
      nodes := WithLinks(nodes, id, lc, neighbours);
      SameHeights(start, nodes, lc);
      OthersUnlinked(start, nodes, id, lc, neighbours);
      LinkBack(id, neighbours, lc);
      SameHeights(was, nodes, lc);
      ElsewhereChain(start, was, nodes, lc);
      AllLinked(cfg, dist, start, was, nodes, id, lc, ep, next, neighbours);
    }

    // `link_node_`: down to the layer of the new node by the nearest node of each layer, then
    // linked on every layer it shares with the graph. The tallest node is the entry point.
    method LinkNode(id: nat) returns (ghost eps: seq<nat>)
      requires cfg.m <= cfg.mMax && cfg.m <= cfg.mMax0 && GraphOK(cfg, nodes) && id == |nodes| - 1
      requires maxLayer >= -1 && (maxLayer == -1 <==> id == 0) && Lonely(nodes, id, maxLayer)
      requires id > 0 ==> entry < id && |nodes[entry].links| == maxLayer + 1
      requires forall v :: 0 <= v < id ==> |nodes[v].links| <= maxLayer + 1
      modifies this
      ensures Valid() && SameShape(old(nodes), nodes)
      ensures cfg.m > 0 ==>
        forall k :: 0 <= k < |nodes[id].links| && k <= old(maxLayer) ==> nodes[id].links[k] != []
      ensures old(maxLayer) >= 0 ==>
        Descent(dist, old(nodes), nodes[id].data, old(entry), old(maxLayer), |nodes[id].links| - 1, eps)
      ensures forall k: nat :: k < |nodes[id].links| && k <= old(maxLayer) ==>
        LinkedOn(cfg, dist, old(nodes), nodes, id, k, old(maxLayer), eps)
      ensures forall k: nat :: k >= |nodes[id].links| || k > old(maxLayer) ==> SameLayer(old(nodes), nodes, k)
      ensures var taller := |nodes[id].links| - 1 > old(maxLayer);
        && entry == (if taller then id else old(entry))
        && maxLayer == if taller then |nodes[id].links| - 1 else old(maxLayer)
    {
      hide GraphOK, Lonely, Unlinked, LinkedOn, SameLayer, Descent;
      AllLayersSame(nodes);
      eps := [];
      var l := |nodes[id].links| - 1;
      LinksExist(cfg, nodes);
      if maxLayer < 0 {
        entry, maxLayer := id, l;
        return;
      }
      ghost var was := nodes;
      var top, mid := maxLayer, if maxLayer < l then maxLayer else l;
      var ep;
      forall k: nat | k <= top ensures Unlinked(nodes, id, k) { LonelyAt(nodes, id, top, k); }
      LonelyLess(nodes, id, top, mid);
      ep, eps := DescendTo(nodes[id].data, id, mid);
      ghost var way := eps;
      eps := LinkLayers(id, ep, mid, top, eps);
      DescentStays(dist, was, was[id].data, entry, top, mid, way, l, eps);
      if l > top { maxLayer, entry := l, id; }
    }

    // The greedy descent towards q from the entry point to a layer.
    method DescendTo(q: Vec, ghost id: nat, bottom: nat) returns (ep: nat, ghost eps: seq<nat>)
      requires GraphOK(cfg, nodes) && bottom <= maxLayer && Tall(nodes, entry, maxLayer) && entry != id
      requires forall k: nat :: bottom < k <= maxLayer ==> Unlinked(nodes, id, k)
      ensures Tall(nodes, ep, bottom) && ep != id
      ensures |eps| == maxLayer - bottom + 1 && eps[maxLayer - bottom] == ep
      ensures Descent(dist, nodes, q, entry, maxLayer, bottom, eps)
    {
      hide GraphOK, Unlinked, Descent, Descends;
      var lc := maxLayer;
      ep, eps := entry, [entry];
      DescentStarts(dist, nodes, q, entry, maxLayer);
      while lc > bottom
        invariant bottom <= lc <= maxLayer && Tall(nodes, ep, lc) && ep != id
        invariant |eps| == maxLayer - lc + 1 && eps[maxLayer - lc] == ep
        invariant Descent(dist, nodes, q, entry, maxLayer, lc, eps)
      {
        var next := Descend(q, id, ep, lc);
        DescentLonger(dist, nodes, q, entry, maxLayer, lc, eps, next);
        ep, eps := next, eps + [next];
        lc := lc - 1;
      }
    }

    // The new node is linked on the layers from mid down.
    method LinkLayers(id: nat, from: nat, mid: nat, ghost top: nat, ghost way: seq<nat>) returns (ghost eps: seq<nat>)
      requires cfg.m <= cfg.mMax && cfg.m <= cfg.mMax0 && GraphOK(cfg, nodes) && Tall(nodes, id, mid)
      requires Lonely(nodes, id, mid) && Tall(nodes, from, mid) && from != id && mid <= top
      requires |way| == top - mid + 1 && way[top - mid] == from
      modifies this`nodes
      ensures GraphOK(cfg, nodes) && SameShape(old(nodes), nodes) && way <= eps
      ensures cfg.m > 0 ==> forall k :: 0 <= k <= mid ==> nodes[id].links[k] != []
      ensures forall k: nat :: k <= mid ==> LinkedOn(cfg, dist, old(nodes), nodes, id, k, top, eps)
      ensures forall k: nat :: k > mid ==> SameLayer(old(nodes), nodes, k)
    {
      hide GraphOK, Lonely, Unlinked, LinkedOn, Linked, SameLayer, SameElsewhere;
      ghost var was := nodes;
      AllLayersSame(nodes);
      var lc, ep := mid as int, from;
      eps := way;
      while lc >= 0
        invariant -1 <= lc <= mid && GraphOK(cfg, nodes) && SameShape(was, nodes)
        invariant Lonely(nodes, id, lc) && ep != id && (lc >= 0 ==> Tall(nodes, ep, lc))
        invariant cfg.m > 0 ==> forall k :: lc < k <= mid ==> nodes[id].links[k] != []
        invariant |eps| == top - lc + 1 && eps[top - lc] == ep && way <= eps
        invariant forall k: nat :: lc < k <= mid ==> LinkedOn(cfg, dist, was, nodes, id, k, top, eps)
        invariant forall k: nat :: k <= lc || k > mid ==> SameLayer(was, nodes, k)
      {
        ghost var before := nodes;
        LonelyAt(nodes, id, lc, lc);
        var next := LinkLayer(id, ep, lc);
        SameHeights(before, nodes, lc);
        StillLonely(before, nodes, id, lc);
        LayersFollow(cfg, dist, was, before, nodes, id, lc, mid, top, eps, next);
        ep, eps := next, eps + [next];
        lc := lc - 1;
      }
    }

    // One layer of the greedy descent towards q, never through a node nobody links to.
    method Descend(q: Vec, ghost id: nat, ep: nat, lc: nat) returns (next: nat)
      requires GraphOK(cfg, nodes) && Tall(nodes, ep, lc) && ep != id && Unlinked(nodes, id, lc)
      ensures Tall(nodes, next, lc) && next != id && Descends(dist, nodes, q, lc, ep, next)
    {
      hide GraphOK, Nearest, SeenOK, Expanded, Reachable, InRange, Unlinked, ClosestFirst;
      AdjInRange(cfg, nodes, lc);
      var d := DistancesTo(dist, Data(nodes), q);
      var ws, found, seen := SearchLayer(Adj(nodes, lc), d, ep, 1);
      ResultsTall(cfg, nodes, lc, ep, id, ws);
      next := Closest(q, ws);
      assert Searched(Adj(nodes, lc), d, ep, 1, ws, found, seen);
    }

    /** `add`: the vector gets the next number, and a place on layers 0 to l. Where the graph
        was there before, the new node has links out. */
    method Add(vec: Vec, l: nat) returns (id: nat, ghost eps: seq<nat>)
      requires Valid()
      modifies this
      ensures Valid() && id == old(|nodes|) && |nodes| == id + 1
      ensures nodes[id].data == vec && |nodes[id].links| == l + 1
      ensures forall v :: 0 <= v < id ==>
        nodes[v].data == old(nodes)[v].data && |nodes[v].links| == |old(nodes)[v].links|
      ensures cfg.m > 0 ==> forall k :: 0 <= k <= l && k <= old(maxLayer) ==> nodes[id].links[k] != []
      ensures var more := old(nodes) + [Node(vec, Empties(l + 1))];
        && (old(maxLayer) >= 0 ==> Descent(dist, more, vec, old(entry), old(maxLayer), l, eps))
        && (forall k: nat :: k <= l && k <= old(maxLayer) ==>
              LinkedOn(cfg, dist, more, nodes, id, k, old(maxLayer), eps))
        && forall k: nat :: k > l || k > old(maxLayer) ==> SameLayer(more, nodes, k)
      ensures entry == (if l > old(maxLayer) then id else old(entry))
      ensures maxLayer == if l > old(maxLayer) then l else old(maxLayer)
    {
      hide GraphOK, Lonely, LinkedOn, SameLayer, Descent;
      id := |nodes|;
      NewNode(cfg, nodes, vec, l, maxLayer);
      nodes := nodes + [Node(vec, Empties(l + 1))];
      eps := LinkNode(id);
    }

    /** `search`: down from the entry point by the nearest node of each layer, then the K
        nearest of the nodes that a wider search of the lowest layer visits; with a search
        width or a K that covers everything reachable there, the K nearest of all that. */
    method Search(q: Vec, k: nat) returns (out: seq<Entry>, ghost eps: seq<nat>, ghost seen: seq<nat>)
      requires Valid()
      ensures nodes == [] ==> out == []
      ensures nodes != [] ==>
        && |eps| == maxLayer + 1 && Descent(dist, nodes, q, entry, maxLayer, 0, eps)
        && Visits(cfg, dist, nodes, q, k, eps[maxLayer], seen)
        && Nearest(Listing(seen, DistancesTo(dist, Data(nodes), q)), k, out)
    {
      hide GraphOK, Nearest, SeenOK, Expanded, Reachable, InRange, Unlinked, ListOK, Descent, Visits, Listing;
      eps, seen := [], [];
      if maxLayer < 0 { return [], [], []; }
      forall k: nat ensures Unlinked(nodes, |nodes|, k) { NobodyBeyond(cfg, nodes, k); }
      var at;
      at, eps := DescendTo(q, |nodes|, 0);
      out, seen := SearchGround(q, k, at);
    }

    // The lowest layer, from at.
    method SearchGround(q: Vec, k: nat, at: nat) returns (out: seq<Entry>, ghost seen: seq<nat>)
      requires GraphOK(cfg, nodes) && at < |nodes|
      ensures Visits(cfg, dist, nodes, q, k, at, seen)
      ensures Nearest(Listing(seen, DistancesTo(dist, Data(nodes), q)), k, out)
    {
      hide GraphOK, Nearest, SeenOK, Expanded, Reachable, InRange, Rising, Listing, DistancesTo, Visits;
      AdjInRange(cfg, nodes, 0);
      var d := DistancesTo(dist, Data(nodes), q);
      var ef := if cfg.efSearch >= k then cfg.efSearch else k;
      var ws;
      ghost var found;
      ws, found, seen := SearchLayer(Adj(nodes, 0), d, at, ef);
      SeenDistinct(Adj(nodes, 0), at, seen);
      WsListing(ws, found, seen, d, Width(ef));
      var sorted := SortByDistance(Listing(ws, d));
      out := if |sorted| > k then sorted[..k] else sorted;
      VisitsAre(cfg, dist, nodes, q, k, at, ws, found, seen, sorted, out);
    }
  }
}
