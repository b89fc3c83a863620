/** The shared B-link tree: the node arena together with the history needed to state what
    the protocol keeps, and the six changes that writers make to it, one per critical
    section. Locks and threads are in BLinkThreads. */
module BLinkTree {
  import opened Basics
  import opened TreeKeys

  /** `level`, `low`, `ord`, `uids` and `origin` are history: the source does not store them.
      level: distance from the leaves; low: the bound below which nothing is ever routed
      here, fixed when the node is created; ord: a label, also fixed at creation, that
      orders the nodes of one level from left to right; uids[i]: which leaf write put
      entry i in the tree; origin: the node this one was split off, none for a root. */
  datatype Node = Node(
    leaf: bool, keys: seq<Key>, values: seq<InternalId>, children: seq<NodeId>,
    right: Option<NodeId>, high: Option<Key>, hint: Option<NodeId>,
    level: nat, low: Option<Key>, ord: real, uids: seq<nat>, origin: Option<NodeId>)

  /** log[u]: the entry written by leaf write u; loc[u]: the leaf that holds it now;
      par[n]: the internal node that has n among its children. All three are history. */
  datatype Tree = Tree(
    nodes: seq<Node>, root: NodeId,
    log: seq<(Key, InternalId)>, loc: seq<NodeId>, par: seq<Option<NodeId>>)

  // ----- what holds of every tree the protocol can reach -----

  predicate NodeShape(nd: Node) {
    if nd.leaf then |nd.values| == |nd.keys| && |nd.uids| == |nd.keys|
    else |nd.children| == |nd.keys| + 1
  }

  ghost predicate LowLt(low: Option<Key>, k: Key) { low.Some? ==> low.value < k }
  ghost predicate LowLe(low: Option<Key>, k: Key) { low.Some? ==> low.value <= k }
  ghost predicate HighGe(high: Option<Key>, k: Key) { high.Some? ==> k <= high.value }

  // n is m, or lies to the left of m on the same level.
  ghost predicate AtOrLeft(t: Tree, n: NodeId, m: NodeId) {
    && n < |t.nodes| && m < |t.nodes|
    && t.nodes[n].level == t.nodes[m].level
    && t.nodes[n].ord <= t.nodes[m].ord
  }

  ghost predicate Left(t: Tree, n: NodeId, m: NodeId) {
    && n < |t.nodes| && m < |t.nodes|
    && t.nodes[n].level == t.nodes[m].level
    && t.nodes[n].ord < t.nodes[m].ord
  }

  ghost predicate Shapes(t: Tree) {
    forall n :: 0 <= n < |t.nodes| ==>
      NodeShape(t.nodes[n]) && (t.nodes[n].leaf <==> t.nodes[n].level == 0) &&
      (t.nodes[n].leaf ==> t.nodes[n].children == [])
  }

  // A right link leads to a node of the same level, further right, whose low bound is
  // this node's high key; only a rightmost node has neither link nor high key.
  ghost predicate LinkOK(t: Tree, n: NodeId)
    requires n < |t.nodes|
  {
    var nd := t.nodes[n];
    && (nd.right.None? <==> nd.high.None?)
    && (nd.right.Some? ==> Left(t, n, nd.right.value) && t.nodes[nd.right.value].low == nd.high)
  }

  ghost predicate Links(t: Tree) {
    forall n :: 0 <= n < |t.nodes| ==> LinkOK(t, n)
  }

  // The right links of one level visit its nodes in label order, skipping none.
  ghost predicate Chains(t: Tree) {
    forall n: NodeId, m: NodeId :: n != m && AtOrLeft(t, n, m) ==>
      Left(t, n, m) && t.nodes[n].right.Some? && AtOrLeft(t, t.nodes[n].right.value, m)
  }

  // Child i starts just above separator i - 1; child 0 starts where its parent starts.
  // Nothing is said about the order of the separators: see BLinkOrder.
  ghost predicate RouteOK(t: Tree, n: NodeId, i: nat)
    requires n < |t.nodes| == |t.par| && i < |t.nodes[n].children| == |t.nodes[n].keys| + 1
  {
    var c := t.nodes[n].children[i];
    && c < |t.nodes|
    && t.nodes[c].level + 1 == t.nodes[n].level
    && t.nodes[c].low == (if i == 0 then t.nodes[n].low else Some(t.nodes[n].keys[i - 1]))
    && t.par[c] == Some(n)
  }

  ghost predicate Routing(t: Tree) {
    && |t.par| == |t.nodes|
    && (forall n :: 0 <= n < |t.nodes| ==> NodeShape(t.nodes[n]) && Distinct(t.nodes[n].children))
    && (forall n, i :: 0 <= n < |t.nodes| && !t.nodes[n].leaf && 0 <= i < |t.nodes[n].children| ==>
         RouteOK(t, n, i))
  }

  ghost predicate Parents(t: Tree) {
    && |t.par| == |t.nodes|
    && (forall n :: 0 <= n < |t.nodes| && t.par[n].Some? ==>
         t.par[n].value < |t.nodes| && n in t.nodes[t.par[n].value].children
         && t.nodes[t.par[n].value].level == t.nodes[n].level + 1)
  }

  ghost predicate LeafBounds(nd: Node) {
    && Sorted(nd.keys)
    && (nd.high.Some? ==> LowLe(nd.low, nd.high.value))
    && (forall i :: 0 <= i < |nd.keys| ==> LowLe(nd.low, nd.keys[i]) && HighGe(nd.high, nd.keys[i]))
  }

  ghost predicate LeafContents(t: Tree) {
    forall n :: 0 <= n < |t.nodes| && t.nodes[n].leaf ==> LeafBounds(t.nodes[n])
  }

  ghost predicate LeafOrder(t: Tree) {
    forall n: NodeId, m: NodeId :: Left(t, n, m) && t.nodes[n].leaf ==>
      t.nodes[n].high.Some? && t.nodes[m].low.Some? && t.nodes[n].high.value <= t.nodes[m].low.value
  }

  // Every logged write is in exactly one place, the one loc names.
  ghost predicate EntryAt(t: Tree, n: NodeId, i: nat)
    requires n < |t.nodes| && i < |t.nodes[n].keys|
    requires NodeShape(t.nodes[n]) && t.nodes[n].leaf && |t.loc| == |t.log|
  {
    var u := t.nodes[n].uids[i];
    u < |t.log| && t.loc[u] == n && t.log[u] == (t.nodes[n].keys[i], t.nodes[n].values[i])
  }

  ghost predicate Located(t: Tree) {
    && |t.loc| == |t.log|
    && (forall u :: 0 <= u < |t.log| ==>
         t.loc[u] < |t.nodes| && t.nodes[t.loc[u]].leaf && u in t.nodes[t.loc[u]].uids)
    && (forall n :: 0 <= n < |t.nodes| && t.nodes[n].leaf ==>
         NodeShape(t.nodes[n]) && Distinct(t.nodes[n].uids))
    && (forall n, i :: 0 <= n < |t.nodes| && t.nodes[n].leaf && 0 <= i < |t.nodes[n].keys| ==>
         EntryAt(t, n, i))
  }

  ghost predicate RootOK(t: Tree) {
    && t.root < |t.nodes| == |t.par|
    && t.par[t.root].None? && t.nodes[t.root].low.None?
    && forall n :: 0 <= n < |t.nodes| ==> t.nodes[n].level <= t.nodes[t.root].level
  }

  // h leads to c: c has been spliced, and its holder is h or lies to the right of h.
  ghost predicate LeadsTo(t: Tree, h: NodeId, c: NodeId) {
    && c < |t.par| && t.par[c].Some? && AtOrLeft(t, h, t.par[c].value)
  }

  ghost predicate Hints(t: Tree) {
    forall n :: 0 <= n < |t.nodes| && t.nodes[n].hint.Some? ==> LeadsTo(t, t.nodes[n].hint.value, n)
  }

  ghost predicate TreeOK(t: Tree) {
    && Shapes(t) && Links(t) && Chains(t) && Routing(t) && Parents(t)
    && LeafContents(t) && LeafOrder(t) && Located(t) && RootOK(t) && Hints(t)
  }

  // ----- how one state of the tree may follow another -----

  // Nodes keep their place; a spliced node's holder only moves right; logged entries
  // never cross, in either direction, a leaf that already existed.
  ghost predicate Evolves(t: Tree, t': Tree) {
    && |t.nodes| <= |t'.nodes| && |t.par| == |t.nodes| && |t'.par| == |t'.nodes|
    && |t.loc| == |t.log| && |t'.loc| == |t'.log|
    && (forall n :: 0 <= n < |t.nodes| ==>
         && t'.nodes[n].level == t.nodes[n].level && t'.nodes[n].ord == t.nodes[n].ord
         && t'.nodes[n].low == t.nodes[n].low && t'.nodes[n].leaf == t.nodes[n].leaf)
    && (forall n: NodeId, h: NodeId :: LeadsTo(t, h, n) ==> LeadsTo(t', h, n))
    && t.log <= t'.log
    && (forall u, c :: 0 <= u < |t.log| && 0 <= c < |t.nodes| ==>
         (Left(t', t'.loc[u], c) <==> Left(t, t.loc[u], c)))
  }

  // ----- the six changes -----

  // A leaf write: the entry goes to its lower bound, under the leaf's mutex.
  function WriteLeaf(t: Tree, n: NodeId, key: Key, id: InternalId): Tree
    requires n < |t.nodes| && t.nodes[n].leaf && NodeShape(t.nodes[n])
  {
    var nd := t.nodes[n];
    var pos := LowerBound(nd.keys, key);
    var nd' := nd.(keys := InsertAt(nd.keys, pos, key), values := InsertAt(nd.values, pos, id),
                   uids := InsertAt(nd.uids, pos, |t.log|));
    t.(nodes := t.nodes[n := nd'], log := t.log + [(key, id)], loc := t.loc + [n])
  }

  // The label for a node created just right of n.
  function NewOrd(t: Tree, n: NodeId): real
    requires n < |t.nodes|
  {
    if t.nodes[n].right.Some? && t.nodes[n].right.value < |t.nodes|
    then (t.nodes[n].ord + t.nodes[t.nodes[n].right.value].ord) / 2.0
    else t.nodes[n].ord + 1.0
  }

  // `split_leaf_`: the left half keeps the middle, whose last key becomes the separator.
  function LeafMid(nd: Node): nat { (|nd.keys| + 1) / 2 }

  function SplitLeaf(t: Tree, n: NodeId): Tree
    requires n < |t.nodes| && t.nodes[n].leaf && NodeShape(t.nodes[n]) && |t.nodes[n].keys| > 0
  {
    var nd := t.nodes[n];
    var mid := LeafMid(nd);
    var r := |t.nodes|;
    var sep := nd.keys[mid - 1];
    var rn := Node(true, nd.keys[mid..], nd.values[mid..], [], nd.right, nd.high, None,
                   nd.level, Some(sep), NewOrd(t, n), nd.uids[mid..], Some(n));
    var ln := nd.(keys := nd.keys[..mid], values := nd.values[..mid], uids := nd.uids[..mid],
                  right := Some(r), high := Some(sep));
    t.(nodes := t.nodes[n := ln] + [rn], par := t.par + [None],
       loc := seq(|t.loc|, u requires 0 <= u < |t.loc| => if u in nd.uids[mid..] then r else t.loc[u]))
  }

  // The splice: (sep, r) goes in next to child c by identity, at position ci.
  function Splice(t: Tree, p: NodeId, ci: nat, sep: Key, r: NodeId): Tree
    requires p < |t.nodes| && ci <= |t.nodes[p].keys| && ci < |t.nodes[p].children|
    requires r < |t.par|
  {
    var nd := t.nodes[p];
    t.(nodes := t.nodes[p := nd.(keys := InsertAt(nd.keys, ci, sep),
                                 children := InsertAt(nd.children, ci + 1, r))],
       par := t.par[r := Some(p)])
  }

  function WriteHint(t: Tree, c: NodeId, h: NodeId): Tree
    requires c < |t.nodes|
  {
    t.(nodes := t.nodes[c := t.nodes[c].(hint := Some(h))])
  }

  // `split_internal_`: the middle key is promoted and kept by neither half.
  function InnerMid(nd: Node): nat { |nd.keys| / 2 }

  function SplitInner(t: Tree, n: NodeId): Tree
    requires n < |t.nodes| && !t.nodes[n].leaf && NodeShape(t.nodes[n]) && |t.nodes[n].keys| > 0
  {
    var nd := t.nodes[n];
    var mid := InnerMid(nd);
    var r := |t.nodes|;
    var sep := nd.keys[mid];
    var moved := nd.children[mid + 1..];
    var rn := Node(false, nd.keys[mid + 1..], [], moved, nd.right, nd.high, None,
                   nd.level, Some(sep), NewOrd(t, n), [], Some(n));
    var ln := nd.(keys := nd.keys[..mid], children := nd.children[..mid + 1],
                  right := Some(r), high := Some(sep));
    t.(nodes := t.nodes[n := ln] + [rn],
       par := seq(|t.par|, c requires 0 <= c < |t.par| => if c in moved then Some(r) else t.par[c]) + [None])
  }

  // Root growth: one new level above c, the current root.
  function GrowRoot(t: Tree, c: NodeId, sep: Key, r: NodeId): Tree
    requires c < |t.nodes| == |t.par| && r < |t.par|
  {
    var top := |t.nodes|;
    var nd := Node(false, [sep], [], [c, r], None, None, None,
                   t.nodes[c].level + 1, None, 0.0, [], None);
    t.(nodes := t.nodes + [nd], root := top, par := t.par[c := Some(top)][r := Some(top)] + [None])
  }

  // An unspliced right half r of c: the argument of a pending splice.
  ghost predicate Pending(t: Tree, c: NodeId, sep: Key, r: NodeId) {
    && c < |t.nodes| == |t.par| && r < |t.nodes| && r != c && r != t.root
    && t.par[r].None?
    && t.nodes[r].low == Some(sep)
    && t.nodes[r].level == t.nodes[c].level
  }

  // ----- the changes that create no node -----

  // t' has the nodes of t at the same places with the same links and bounds.
  ghost predicate SameOutline(t: Tree, t': Tree) {
    && |t'.nodes| == |t.nodes| && |t'.par| == |t.par| == |t.nodes| && t'.root == t.root
    && forall n :: 0 <= n < |t.nodes| ==>
         && t'.nodes[n].level == t.nodes[n].level && t'.nodes[n].ord == t.nodes[n].ord
         && t'.nodes[n].low == t.nodes[n].low && t'.nodes[n].leaf == t.nodes[n].leaf
         && t'.nodes[n].right == t.nodes[n].right && t'.nodes[n].high == t.nodes[n].high
  }

  lemma OutlineKeeps(t: Tree, t': Tree)
    requires SameOutline(t, t') && Links(t) && Chains(t) && LeafOrder(t)
    ensures Links(t') && Chains(t') && LeafOrder(t')
  {
    forall n | 0 <= n < |t'.nodes| ensures LinkOK(t', n) { assert LinkOK(t, n); }
    assert LeafOrder(t') by {
      forall n: NodeId, m: NodeId | Left(t', n, m) && t'.nodes[n].leaf
        ensures t'.nodes[n].high.Some? && t'.nodes[m].low.Some? && t'.nodes[n].high.value <= t'.nodes[m].low.value
      {
        assert Left(t, n, m);
      }
    }
    assert Chains(t') by {
      forall n: NodeId, m: NodeId | n != m && AtOrLeft(t', n, m)
        ensures Left(t', n, m) && t'.nodes[n].right.Some? && AtOrLeft(t', t'.nodes[n].right.value, m)
      {
        assert AtOrLeft(t, n, m) && AtOrLeft(t, t.nodes[n].right.value, m);
      }
    }
  }

  lemma OutlineEvolves(t: Tree, t': Tree)
    requires SameOutline(t, t') && |t.loc| == |t.log| && |t'.loc| == |t'.log|
    requires t.log <= t'.log && t.loc <= t'.loc
    requires forall n :: 0 <= n < |t.par| && t.par[n].Some? ==> t'.par[n] == t.par[n]
    ensures Evolves(t, t')
  {
    forall n: NodeId, h: NodeId | LeadsTo(t, h, n) ensures LeadsTo(t', h, n) {}
    forall u, c | 0 <= u < |t.log| && 0 <= c < |t.nodes|
      ensures Left(t', t'.loc[u], c) <==> Left(t, t.loc[u], c)
    {
      assert t'.loc[u] == t.loc[u];
    }
  }

  // t' has, besides, the entries of t.
  ghost predicate SameEntries(t: Tree, t': Tree)
    requires |t'.nodes| == |t.nodes|
  {
    && t'.log == t.log && t'.loc == t.loc
    && forall n :: 0 <= n < |t.nodes| && t.nodes[n].leaf ==>
         && t'.nodes[n].keys == t.nodes[n].keys && t'.nodes[n].values == t.nodes[n].values
         && t'.nodes[n].uids == t.nodes[n].uids
  }

  lemma EntriesKeep(t: Tree, t': Tree)
    requires SameOutline(t, t') && SameEntries(t, t') && Located(t) && LeafContents(t)
    ensures Located(t') && LeafContents(t')
  {
    forall m, i | 0 <= m < |t.nodes| && t.nodes[m].leaf && 0 <= i < |t'.nodes[m].keys|
      ensures EntryAt(t', m, i)
    {
      assert EntryAt(t, m, i);
    }
  }

  lemma WriteHintKeeps(t: Tree, c: NodeId, h: NodeId)
    requires TreeOK(t) && LeadsTo(t, h, c)
    ensures var t' := WriteHint(t, c, h); TreeOK(t') && Evolves(t, t')
  {
    var t' := WriteHint(t, c, h);
    OutlineKeeps(t, t');
    EntriesKeep(t, t');
    OutlineEvolves(t, t');
    HintRoutes(t, c, h);
  }

  lemma HintRoutes(t: Tree, c: NodeId, h: NodeId)
    requires Routing(t) && Parents(t) && Hints(t) && LeadsTo(t, h, c)
    ensures var t' := WriteHint(t, c, h); Routing(t') && Parents(t') && Hints(t')
  {
    var t' := WriteHint(t, c, h);
    forall m, i | 0 <= m < |t'.nodes| && !t'.nodes[m].leaf && 0 <= i < |t'.nodes[m].children|
      ensures RouteOK(t', m, i)
    {
      assert RouteOK(t, m, i);
    }
    forall n | 0 <= n < |t'.nodes| && t'.nodes[n].hint.Some?
      ensures LeadsTo(t', t'.nodes[n].hint.value, n)
    {
      assert LeadsTo(t, t'.nodes[n].hint.value, n);
    }
  }

  lemma WriteLeafKeeps(t: Tree, n: NodeId, key: Key, id: InternalId)
    requires TreeOK(t) && n < |t.nodes| && t.nodes[n].leaf
    requires LowLt(t.nodes[n].low, key) && HighGe(t.nodes[n].high, key)
    ensures var t' := WriteLeaf(t, n, key, id); TreeOK(t') && Evolves(t, t')
  {
    var t' := WriteLeaf(t, n, key, id);
    OutlineKeeps(t, t');
    OutlineEvolves(t, t');
    WriteLeafRoutes(t, n, key, id);
    WriteLeafLocates(t, n, key, id);
    WriteLeafBounds(t, n, key, id);
  }

  lemma WriteLeafBounds(t: Tree, n: NodeId, key: Key, id: InternalId)
    requires Shapes(t) && LeafContents(t) && n < |t.nodes| && t.nodes[n].leaf
    requires LowLt(t.nodes[n].low, key) && HighGe(t.nodes[n].high, key)
    ensures LeafContents(WriteLeaf(t, n, key, id))
  {
    var nd := t.nodes[n];
    assert LeafBounds(nd);
    SortedInsert(nd.keys, key);
    InsertKeepsMembers(nd.keys, LowerBound(nd.keys, key), key);
  }

  lemma WriteLeafRoutes(t: Tree, n: NodeId, key: Key, id: InternalId)
    requires Shapes(t) && Routing(t) && Parents(t) && Hints(t) && n < |t.nodes| && t.nodes[n].leaf
    ensures var t' := WriteLeaf(t, n, key, id); Routing(t') && Parents(t') && Hints(t')
  {
    var t' := WriteLeaf(t, n, key, id);
    forall m, i | 0 <= m < |t'.nodes| && !t'.nodes[m].leaf && 0 <= i < |t'.nodes[m].children|
      ensures RouteOK(t', m, i)
    {
      assert RouteOK(t, m, i);
    }
    forall n | 0 <= n < |t'.nodes| && t'.nodes[n].hint.Some?
      ensures LeadsTo(t', t'.nodes[n].hint.value, n)
    {
      assert LeadsTo(t, t'.nodes[n].hint.value, n);
    }
  }

  lemma WriteLeafLocates(t: Tree, n: NodeId, key: Key, id: InternalId)
    requires Shapes(t) && Located(t) && n < |t.nodes| && t.nodes[n].leaf
    ensures Located(WriteLeaf(t, n, key, id))
  {
    var t' := WriteLeaf(t, n, key, id);
    var nd := t.nodes[n];
    var pos := LowerBound(nd.keys, key);
    forall i | 0 <= i < |nd.uids| ensures nd.uids[i] < |t.log| { assert EntryAt(t, n, i); }
    InsertDistinct(nd.uids, pos, |t.log|);
    InsertKeepsMembers(nd.uids, pos, |t.log|);
    forall m, i | 0 <= m < |t.nodes| && t.nodes[m].leaf && 0 <= i < |t'.nodes[m].keys|
      ensures EntryAt(t', m, i)
    {
      WriteLeafEntry(t, n, key, id, m, i);
    }
  }

  lemma WriteLeafEntry(t: Tree, n: NodeId, key: Key, id: InternalId, m: NodeId, i: nat)
    requires Shapes(t) && Located(t) && n < |t.nodes| && t.nodes[n].leaf
    requires m < |t.nodes| && t.nodes[m].leaf && i < |WriteLeaf(t, n, key, id).nodes[m].keys|
    ensures EntryAt(WriteLeaf(t, n, key, id), m, i)
  {
    var pos := LowerBound(t.nodes[n].keys, key);
    if m != n || i < pos {
      assert EntryAt(t, m, i);
    } else if i > pos {
      assert EntryAt(t, n, i - 1);
    }
  }

  lemma SpliceKeeps(t: Tree, p: NodeId, ci: nat, c: NodeId, sep: Key, r: NodeId)
    requires TreeOK(t) && Pending(t, c, sep, r)
    requires p < |t.nodes| && !t.nodes[p].leaf
    requires ci < |t.nodes[p].children| && t.nodes[p].children[ci] == c
    ensures var t' := Splice(t, p, ci, sep, r);
      TreeOK(t') && Evolves(t, t') && LeadsTo(t', p, r)
  {
    var t' := Splice(t, p, ci, sep, r);
    OutlineKeeps(t, t');
    OutlineEvolves(t, t');
    EntriesKeep(t, t');
    SpliceRoutes(t, p, ci, c, sep, r);
  }

  lemma SpliceRoutes(t: Tree, p: NodeId, ci: nat, c: NodeId, sep: Key, r: NodeId)
    requires Shapes(t) && Routing(t) && Parents(t) && Hints(t) && Pending(t, c, sep, r)
    requires p < |t.nodes| && !t.nodes[p].leaf
    requires ci < |t.nodes[p].children| && t.nodes[p].children[ci] == c
    ensures var t' := Splice(t, p, ci, sep, r);
      Routing(t') && Parents(t') && Hints(t') && LeadsTo(t', p, r)
  {
    var t' := Splice(t, p, ci, sep, r);
    var nd := t.nodes[p];
    assert RouteOK(t, p, ci);
    forall i | 0 <= i < |nd.children| ensures nd.children[i] != r { assert RouteOK(t, p, i); }
    InsertDistinct(nd.children, ci + 1, r);
    InsertKeepsMembers(nd.children, ci + 1, r);
    forall m, i | 0 <= m < |t'.nodes| && !t'.nodes[m].leaf && 0 <= i < |t'.nodes[m].children|
      ensures RouteOK(t', m, i)
    {
      SpliceRoute(t, p, ci, c, sep, r, m, i);
    }
    forall n | 0 <= n < |t'.nodes| && t'.nodes[n].hint.Some?
      ensures LeadsTo(t', t'.nodes[n].hint.value, n)
    {
      assert LeadsTo(t, t'.nodes[n].hint.value, n);
    }
  }

  lemma SpliceRoute(t: Tree, p: NodeId, ci: nat, c: NodeId, sep: Key, r: NodeId, m: NodeId, i: nat)
    requires Shapes(t) && Routing(t) && Pending(t, c, sep, r)
    requires p < |t.nodes| && !t.nodes[p].leaf
    requires ci < |t.nodes[p].children| && t.nodes[p].children[ci] == c
    requires m < |t.nodes| && !t.nodes[m].leaf && i < |Splice(t, p, ci, sep, r).nodes[m].children|
    ensures var t' := Splice(t, p, ci, sep, r); NodeShape(t'.nodes[m]) && RouteOK(t', m, i)
  {
    assert RouteOK(t, p, ci);
    if m != p || i <= ci {
      assert RouteOK(t, m, i);
    } else if i > ci + 1 {
      assert RouteOK(t, p, i - 1);
    }
  }

  // ----- the two splits -----

  // t' is t with n cut in two at `sep`: the new right half is the last node.
  ghost predicate SplitOutline(t: Tree, t': Tree, n: NodeId, sep: Key) {
    && n < |t.nodes| == |t.par| && |t'.nodes| == |t'.par| == |t.nodes| + 1
    && t'.root == t.root
    && (forall m :: 0 <= m < |t.nodes| ==>
         && t'.nodes[m].level == t.nodes[m].level && t'.nodes[m].ord == t.nodes[m].ord
         && t'.nodes[m].low == t.nodes[m].low && t'.nodes[m].leaf == t.nodes[m].leaf)
    && (forall m :: 0 <= m < |t.nodes| && m != n ==>
         t'.nodes[m].right == t.nodes[m].right && t'.nodes[m].high == t.nodes[m].high)
    && t'.nodes[n].right == Some(|t.nodes|) && t'.nodes[n].high == Some(sep)
    && var rn := t'.nodes[|t.nodes|];
    && rn.level == t.nodes[n].level && rn.leaf == t.nodes[n].leaf
    && rn.low == Some(sep) && rn.right == t.nodes[n].right && rn.high == t.nodes[n].high
    && rn.ord == NewOrd(t, n)
  }

  lemma SplitLinks(t: Tree, t': Tree, n: NodeId, sep: Key)
    requires SplitOutline(t, t', n, sep) && Links(t)
    ensures Links(t')
  {
    assert LinkOK(t, n);
    forall m | 0 <= m < |t'.nodes| ensures LinkOK(t', m) {
      if m < |t.nodes| { assert LinkOK(t, m); }
    }
  }

  lemma SplitChains(t: Tree, t': Tree, n: NodeId, sep: Key)
    requires SplitOutline(t, t', n, sep) && Links(t) && Chains(t)
    ensures Chains(t')
  {
    forall a: NodeId, b: NodeId | a != b && AtOrLeft(t', a, b)
      ensures Left(t', a, b) && t'.nodes[a].right.Some? && AtOrLeft(t', t'.nodes[a].right.value, b)
    {
      SplitChain(t, t', n, sep, a, b);
    }
  }

  // Nothing lies between n and its new right half.
  lemma SplitPlace(t: Tree, t': Tree, n: NodeId, sep: Key, a: NodeId)
    requires SplitOutline(t, t', n, sep) && Links(t) && Chains(t)
    requires a < |t.nodes|
    ensures AtOrLeft(t', a, |t.nodes|) <==> AtOrLeft(t, a, n)
    ensures Left(t', a, |t.nodes|) <==> AtOrLeft(t, a, n)
    ensures AtOrLeft(t', |t.nodes|, a) <==> Left(t, n, a)
    ensures Left(t', |t.nodes|, a) <==> Left(t, n, a)
  {
    assert LinkOK(t, n);
    if a != n && AtOrLeft(t, n, a) {
      assert AtOrLeft(t, t.nodes[n].right.value, a);
    }
  }

  lemma SplitChain(t: Tree, t': Tree, n: NodeId, sep: Key, a: NodeId, b: NodeId)
    requires SplitOutline(t, t', n, sep) && Links(t) && Chains(t)
    requires a != b && AtOrLeft(t', a, b)
    ensures Left(t', a, b) && t'.nodes[a].right.Some? && AtOrLeft(t', t'.nodes[a].right.value, b)
  {
    var r := |t.nodes|;
    assert LinkOK(t, n);
    if b == r {
      SplitPlace(t, t', n, sep, a);
      if a != n {
        assert AtOrLeft(t, t.nodes[a].right.value, n);
      }
    } else if a == r {
      SplitPlace(t, t', n, sep, b);
      assert AtOrLeft(t, n, b);
      assert AtOrLeft(t, t.nodes[n].right.value, b);
    } else {
      assert AtOrLeft(t, a, b) && AtOrLeft(t, t.nodes[a].right.value, b);
      if a == n { SplitPlace(t, t', n, sep, b); }
    }
  }

  lemma SplitLeafOrder(t: Tree, t': Tree, n: NodeId, sep: Key)
    requires SplitOutline(t, t', n, sep) && Shapes(t) && Links(t) && Chains(t) && LeafOrder(t)
    requires t.nodes[n].leaf ==> LowLe(t.nodes[n].low, sep) && HighGe(t.nodes[n].high, sep)
    ensures LeafOrder(t')
  {
    forall a: NodeId, b: NodeId | Left(t', a, b) && t'.nodes[a].leaf
      ensures t'.nodes[a].high.Some? && t'.nodes[b].low.Some? && t'.nodes[a].high.value <= t'.nodes[b].low.value
    {
      var r := |t.nodes|;
      if b == r {
        SplitPlace(t, t', n, sep, a);
        if a != n { assert AtOrLeft(t, a, n); assert Left(t, a, n); }
      } else if a == r {
        SplitPlace(t, t', n, sep, b);
        assert Left(t, n, b);
      } else {
        assert Left(t, a, b);
      }
    }
  }

  lemma SplitLeafShape(t: Tree, n: NodeId)
    requires Shapes(t) && Routing(t) && LeafContents(t) && Links(t)
    requires n < |t.nodes| && t.nodes[n].leaf && |t.nodes[n].keys| > 0
    ensures var sep := t.nodes[n].keys[LeafMid(t.nodes[n]) - 1]; var t' := SplitLeaf(t, n);
      && SplitOutline(t, t', n, sep) && Shapes(t') && LeafContents(t')
      && LowLe(t.nodes[n].low, sep) && HighGe(t.nodes[n].high, sep)
  {
    assert LeafBounds(t.nodes[n]);
  }

  lemma SplitLeafRoutes(t: Tree, n: NodeId)
    requires Shapes(t) && Routing(t) && Parents(t) && Hints(t)
    requires n < |t.nodes| && t.nodes[n].leaf && |t.nodes[n].keys| > 0
    ensures var t' := SplitLeaf(t, n); Routing(t') && Parents(t') && Hints(t')
  {
    var t' := SplitLeaf(t, n);
    forall m, i | 0 <= m < |t'.nodes| && !t'.nodes[m].leaf && 0 <= i < |t'.nodes[m].children|
      ensures RouteOK(t', m, i)
    {
      assert RouteOK(t, m, i);
    }
    forall m | 0 <= m < |t'.nodes| && t'.nodes[m].hint.Some?
      ensures LeadsTo(t', t'.nodes[m].hint.value, m)
    {
      assert LeadsTo(t, t'.nodes[m].hint.value, m);
    }
  }

  lemma SplitLeafLocates(t: Tree, n: NodeId)
    requires Shapes(t) && Located(t) && n < |t.nodes| && t.nodes[n].leaf && |t.nodes[n].keys| > 0
    ensures Located(SplitLeaf(t, n))
  {
    var t' := SplitLeaf(t, n);
    var nd := t.nodes[n];
    var mid := LeafMid(nd);
    assert nd.uids == nd.uids[..mid] + nd.uids[mid..];
    forall u | 0 <= u < |t.log|
      ensures t'.loc[u] < |t'.nodes| && t'.nodes[t'.loc[u]].leaf && u in t'.nodes[t'.loc[u]].uids
    {
      assert u in nd.uids ==> u in nd.uids[..mid] || u in nd.uids[mid..];
    }
    forall m, i | 0 <= m < |t'.nodes| && t'.nodes[m].leaf && 0 <= i < |t'.nodes[m].keys|
      ensures EntryAt(t', m, i)
    {
      SplitLeafEntry(t, n, m, i);
    }
  }

  lemma SplitLeafEntry(t: Tree, n: NodeId, m: NodeId, i: nat)
    requires Shapes(t) && Located(t) && n < |t.nodes| && t.nodes[n].leaf && |t.nodes[n].keys| > 0
    requires var t' := SplitLeaf(t, n); m < |t'.nodes| && t'.nodes[m].leaf && i < |t'.nodes[m].keys|
    ensures EntryAt(SplitLeaf(t, n), m, i)
  {
    var nd := t.nodes[n];
    var mid := LeafMid(nd);
    if m == |t.nodes| {
      assert EntryAt(t, n, mid + i);
      assert nd.uids[mid..][i] == nd.uids[mid + i];
    } else {
      assert EntryAt(t, m, i);
      var u := t.nodes[m].uids[i];
      forall j | 0 <= j < |nd.uids| - mid ensures nd.uids[mid..][j] != u {
        assert EntryAt(t, n, mid + j);
      }
    }
  }

  lemma SplitEvolves(t: Tree, t': Tree, n: NodeId, sep: Key)
    requires SplitOutline(t, t', n, sep) && Links(t) && Chains(t)
    requires |t.loc| == |t.log| && |t'.loc| == |t.log| && t'.log == t.log
    requires forall u :: 0 <= u < |t.loc| ==> t'.loc[u] == t.loc[u] || (t.loc[u] == n && t'.loc[u] == |t.nodes|)
    requires forall u :: 0 <= u < |t.loc| ==> t.loc[u] < |t.nodes|
    requires forall c :: 0 <= c < |t.nodes| && t.par[c].Some? ==>
      t.par[c].value < |t.nodes| &&
      (t'.par[c] == t.par[c] || (t.par[c] == Some(n) && t'.par[c] == Some(|t.nodes|)))
    ensures Evolves(t, t')
  {
    forall c: NodeId, h: NodeId | LeadsTo(t, h, c) ensures LeadsTo(t', h, c) {
      SplitPlace(t, t', n, sep, h);
    }
    forall u, c | 0 <= u < |t.log| && 0 <= c < |t.nodes|
      ensures Left(t', t'.loc[u], c) <==> Left(t, t.loc[u], c)
    {
      SplitPlace(t, t', n, sep, c);
      assert Left(t', t.loc[u], c) <==> Left(t, t.loc[u], c);
    }
  }

  // After `split_leaf_` the halves are consistent and the right half is pending.
  lemma SplitLeafKeeps(t: Tree, n: NodeId)
    requires TreeOK(t) && n < |t.nodes| && t.nodes[n].leaf && |t.nodes[n].keys| > 0
    ensures var sep := t.nodes[n].keys[LeafMid(t.nodes[n]) - 1]; var t' := SplitLeaf(t, n);
      TreeOK(t') && Evolves(t, t') && Pending(t', n, sep, |t.nodes|)
  {
    var sep := t.nodes[n].keys[LeafMid(t.nodes[n]) - 1];
    var t' := SplitLeaf(t, n);
    SplitLeafShape(t, n);
    SplitLinks(t, t', n, sep);
    SplitChains(t, t', n, sep);
    SplitLeafOrder(t, t', n, sep);
    SplitLeafRoutes(t, n);
    SplitLeafLocates(t, n);
    SplitLeafEvolves(t, n);
  }

  lemma SplitLeafEvolves(t: Tree, n: NodeId)
    requires TreeOK(t) && n < |t.nodes| && t.nodes[n].leaf && |t.nodes[n].keys| > 0
    ensures Evolves(t, SplitLeaf(t, n))
  {
    var sep := t.nodes[n].keys[LeafMid(t.nodes[n]) - 1];
    var nd := t.nodes[n];
    SplitLeafShape(t, n);
    forall u | u in nd.uids[LeafMid(nd)..] ensures 0 <= u < |t.log| && t.loc[u] == n {
      var i :| 0 <= i < |nd.uids| - LeafMid(nd) && nd.uids[LeafMid(nd)..][i] == u;
      assert EntryAt(t, n, LeafMid(nd) + i);
    }
    SplitEvolves(t, SplitLeaf(t, n), n, sep);
  }

  lemma SplitInnerMoved(t: Tree, n: NodeId, c: NodeId)
    requires Shapes(t) && Routing(t) && Parents(t)
    requires n < |t.nodes| && !t.nodes[n].leaf && |t.nodes[n].keys| > 0
    requires c in t.nodes[n].children[InnerMid(t.nodes[n]) + 1..]
    ensures c < |t.nodes| && t.par[c] == Some(n)
    ensures c !in t.nodes[n].children[..InnerMid(t.nodes[n]) + 1]
  {
    var nd := t.nodes[n];
    var mid := InnerMid(nd);
    var i :| 0 <= i < |nd.children| - (mid + 1) && nd.children[mid + 1..][i] == c;
    assert RouteOK(t, n, mid + 1 + i);
  }

  lemma SplitInnerShape(t: Tree, n: NodeId)
    requires Shapes(t) && Routing(t) && Parents(t) && Located(t) && LeafContents(t)
    requires n < |t.nodes| && !t.nodes[n].leaf && |t.nodes[n].keys| > 0
    ensures var sep := t.nodes[n].keys[InnerMid(t.nodes[n])]; var t' := SplitInner(t, n);
      SplitOutline(t, t', n, sep) && Shapes(t') && LeafContents(t') && Located(t')
  {
    var t' := SplitInner(t, n);
    forall m, i | 0 <= m < |t'.nodes| && t'.nodes[m].leaf && 0 <= i < |t'.nodes[m].keys|
      ensures EntryAt(t', m, i)
    {
      assert EntryAt(t, m, i);
    }
  }

  lemma SplitInnerRoute(t: Tree, n: NodeId, m: NodeId, i: nat)
    requires Shapes(t) && Routing(t) && Parents(t)
    requires n < |t.nodes| && !t.nodes[n].leaf && |t.nodes[n].keys| > 0
    requires var t' := SplitInner(t, n); m < |t'.nodes| && !t'.nodes[m].leaf && i < |t'.nodes[m].children|
    ensures var t' := SplitInner(t, n); NodeShape(t'.nodes[m]) && |t'.par| == |t'.nodes| && RouteOK(t', m, i)
  {
    var t' := SplitInner(t, n);
    var nd := t.nodes[n];
    var mid := InnerMid(nd);
    if m == |t.nodes| {
      assert RouteOK(t, n, mid + 1 + i);
      assert t'.nodes[m].children[i] in nd.children[mid + 1..];
    } else {
      assert RouteOK(t, m, i);
      var c := t.nodes[m].children[i];
      var moved := nd.children[mid + 1..];
      forall j | 0 <= j < |moved| ensures moved[j] != c { assert RouteOK(t, n, mid + 1 + j); }
    }
  }

  lemma SplitInnerRoutes(t: Tree, n: NodeId)
    requires Shapes(t) && Routing(t) && Parents(t)
    requires n < |t.nodes| && !t.nodes[n].leaf && |t.nodes[n].keys| > 0
    ensures var t' := SplitInner(t, n); Routing(t') && Parents(t')
  {
    var t' := SplitInner(t, n);
    var nd := t.nodes[n];
    var mid := InnerMid(nd);
    assert nd.children == nd.children[..mid + 1] + nd.children[mid + 1..];
    forall m, i | 0 <= m < |t'.nodes| && !t'.nodes[m].leaf && 0 <= i < |t'.nodes[m].children|
      ensures RouteOK(t', m, i)
    {
      SplitInnerRoute(t, n, m, i);
    }
    forall c | 0 <= c < |t'.nodes| && t'.par[c].Some?
      ensures t'.par[c].value < |t'.nodes| && c in t'.nodes[t'.par[c].value].children
              && t'.nodes[t'.par[c].value].level == t'.nodes[c].level + 1
    {
      if c in nd.children[mid + 1..] { SplitInnerMoved(t, n, c); }
      assert c in nd.children ==> c in nd.children[..mid + 1] || c in nd.children[mid + 1..];
    }
  }

  lemma HintsFollow(t: Tree, t': Tree)
    requires Hints(t) && Evolves(t, t')
    requires forall n :: 0 <= n < |t.nodes| ==> t'.nodes[n].hint == t.nodes[n].hint
    requires forall n :: |t.nodes| <= n < |t'.nodes| ==> t'.nodes[n].hint.None?
    ensures Hints(t')
  {
    forall m | 0 <= m < |t'.nodes| && t'.nodes[m].hint.Some?
      ensures LeadsTo(t', t'.nodes[m].hint.value, m)
    {
      assert LeadsTo(t, t'.nodes[m].hint.value, m);
    }
  }

  lemma SplitInnerEvolves(t: Tree, n: NodeId)
    requires TreeOK(t) && n < |t.nodes| && !t.nodes[n].leaf && |t.nodes[n].keys| > 0
    ensures Evolves(t, SplitInner(t, n))
  {
    var t' := SplitInner(t, n);
    SplitInnerShape(t, n);
    forall c | 0 <= c < |t.nodes| && t'.par[c] != t.par[c]
      ensures t.par[c] == Some(n) && t'.par[c] == Some(|t.nodes|)
    {
      SplitInnerMoved(t, n, c);
    }
    SplitEvolves(t, t', n, t.nodes[n].keys[InnerMid(t.nodes[n])]);
  }

  // After `split_internal_` the moved children still lead, by any hint they carry or
  // are about to get, to their holder.
  lemma SplitInnerKeeps(t: Tree, n: NodeId)
    requires TreeOK(t) && n < |t.nodes| && !t.nodes[n].leaf && |t.nodes[n].keys| > 0
    ensures var sep := t.nodes[n].keys[InnerMid(t.nodes[n])]; var t' := SplitInner(t, n);
      && TreeOK(t') && Evolves(t, t') && Pending(t', n, sep, |t.nodes|)
      && forall c :: c in t'.nodes[|t.nodes|].children ==> LeadsTo(t', |t.nodes|, c)
  {
    var sep := t.nodes[n].keys[InnerMid(t.nodes[n])];
    var t' := SplitInner(t, n);
    SplitInnerShape(t, n);
    SplitLinks(t, t', n, sep);
    SplitChains(t, t', n, sep);
    SplitLeafOrder(t, t', n, sep);
    SplitInnerRoutes(t, n);
    SplitInnerEvolves(t, n);
    HintsFollow(t, t');
    SplitInnerRoot(t, n);
  }

  lemma SplitInnerRoot(t: Tree, n: NodeId)
    requires Shapes(t) && Routing(t) && Parents(t) && RootOK(t)
    requires n < |t.nodes| && !t.nodes[n].leaf && |t.nodes[n].keys| > 0
    ensures var t' := SplitInner(t, n);
      RootOK(t') && forall c :: c in t'.nodes[|t.nodes|].children ==> LeadsTo(t', |t.nodes|, c)
  {
    var t' := SplitInner(t, n);
    var mid := InnerMid(t.nodes[n]);
    if t.root in t.nodes[n].children[mid + 1..] { SplitInnerMoved(t, n, t.root); assert false; }
    forall c | c in t'.nodes[|t.nodes|].children ensures LeadsTo(t', |t.nodes|, c) {
      SplitInnerMoved(t, n, c);
    }
  }

  // ----- root growth -----

  lemma GrowRootLinks(t: Tree, sep: Key, r: NodeId)
    requires RootOK(t) && Links(t) && Chains(t) && LeafOrder(t) && Shapes(t) && r < |t.nodes|
    ensures var t' := GrowRoot(t, t.root, sep, r); Links(t') && Chains(t') && LeafOrder(t')
  {
    var t' := GrowRoot(t, t.root, sep, r);
    forall n | 0 <= n < |t'.nodes| ensures LinkOK(t', n) {
      if n < |t.nodes| { assert LinkOK(t, n); }
    }
    assert forall n :: 0 <= n < |t.nodes| ==> t'.nodes[n].level < t'.nodes[t'.root].level;
    forall a: NodeId, b: NodeId | a != b && AtOrLeft(t', a, b)
      ensures Left(t', a, b) && t'.nodes[a].right.Some? && AtOrLeft(t', t'.nodes[a].right.value, b)
    {
      assert AtOrLeft(t, a, b) && AtOrLeft(t, t.nodes[a].right.value, b);
    }
    forall a: NodeId, b: NodeId | Left(t', a, b) && t'.nodes[a].leaf
      ensures t'.nodes[a].high.Some? && t'.nodes[b].low.Some? && t'.nodes[a].high.value <= t'.nodes[b].low.value
    {
      assert Left(t, a, b);
    }
  }

  lemma GrowRootRoutes(t: Tree, sep: Key, r: NodeId)
    requires Shapes(t) && Routing(t) && Parents(t) && RootOK(t) && Pending(t, t.root, sep, r)
    ensures var t' := GrowRoot(t, t.root, sep, r); Routing(t') && Parents(t')
  {
    var t' := GrowRoot(t, t.root, sep, r);
    forall m, i | 0 <= m < |t'.nodes| && !t'.nodes[m].leaf && 0 <= i < |t'.nodes[m].children|
      ensures RouteOK(t', m, i)
    {
      if m < |t.nodes| { assert RouteOK(t, m, i); }
    }
    assert t'.nodes[t'.root].children == [t.root, r];
  }

  lemma GrowRootKeeps(t: Tree, sep: Key, r: NodeId)
    requires TreeOK(t) && Pending(t, t.root, sep, r)
    ensures var t' := GrowRoot(t, t.root, sep, r);
      && TreeOK(t') && Evolves(t, t')
      && LeadsTo(t', t'.root, t.root) && LeadsTo(t', t'.root, r)
  {
    var t' := GrowRoot(t, t.root, sep, r);
    GrowRootLinks(t, sep, r);
    GrowRootRoutes(t, sep, r);
    GrowRootEvolves(t, sep, r);
    HintsFollow(t, t');
    GrowRootEntries(t, sep, r);
  }

  lemma GrowRootEvolves(t: Tree, sep: Key, r: NodeId)
    requires RootOK(t) && Located(t) && Pending(t, t.root, sep, r)
    ensures Evolves(t, GrowRoot(t, t.root, sep, r))
  {
    var t' := GrowRoot(t, t.root, sep, r);
    forall c: NodeId, h: NodeId | LeadsTo(t, h, c) ensures LeadsTo(t', h, c) {}
  }

  lemma GrowRootEntries(t: Tree, sep: Key, r: NodeId)
    requires RootOK(t) && Located(t) && Shapes(t) && LeafContents(t) && Pending(t, t.root, sep, r)
    ensures var t' := GrowRoot(t, t.root, sep, r); Located(t') && Shapes(t') && LeafContents(t') && RootOK(t')
  {
    var t' := GrowRoot(t, t.root, sep, r);
    forall m, i | 0 <= m < |t'.nodes| && t'.nodes[m].leaf && 0 <= i < |t'.nodes[m].keys|
      ensures EntryAt(t', m, i)
    {
      assert EntryAt(t, m, i);
    }
  }

  // ----- the tree at the start -----

  // The constructor: one empty leaf.
  function EmptyTree(): Tree {
    Tree([Node(true, [], [], [], None, None, None, 0, None, 0.0, [], None)], 0, [], [], [None])
  }

  lemma EmptyTreeOK()
    ensures TreeOK(EmptyTree())
  {
  }
}
