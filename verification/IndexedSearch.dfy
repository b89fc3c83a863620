/** Filtered search over the two approximate indexes: over-fetch, drop what does not match,
    and return the K nearest of what the index visited. */
module IndexedSearch {
  import opened Basics
  import opened Sequences
  import opened MetaColumn
  import opened MetaRows
  import opened MetaResolve
  import opened MetaTable
  import opened MetadataStores
  import opened VectorDbs
  import opened TopK
  import opened FilteredSearch
  import opened HnswSearch
  import opened HnswIndexes
  import opened IvfIndexes
  import opened VectorDbSearch

  /** `collect_` over the graph: down from the entry point, then the K nearest matching rows
      among those visited on the lowest layer, where more is asked for by the number of rows
      that may have to be dropped. */
  method CollectGraph(index: HnswIndex, q: HnswIndexes.Vec, k: nat, deleted: seq<bool>, deletedCount: nat,
                      allow: Option<seq<nat>>)
    returns (out: seq<Entry>, ghost eps: seq<nat>, ghost seen: seq<nat>)
    requires index.Valid() && k > 0 && |deleted| == |index.nodes| && deletedCount == CountDeleted(deleted)
    requires allow.Some? ==> forall i :: 0 <= i < |allow.value| ==> allow.value[i] < |index.nodes|
    ensures Distinct(seen) && forall i :: 0 <= i < |seen| ==> seen[i] < |index.nodes|
    ensures allow.None? || ExactList(allow.value, deleted) ==>
      Nearest(Keep(Listing(seen, DistancesTo(index.dist, Data(index.nodes), q)), Kept(deleted, allow)), k, out)
    ensures Distinct(IdsOf(out)) && forall o :: o in out ==> o.id < |deleted| && Kept(deleted, allow)[o.id]
    ensures index.nodes != [] ==> Toured(index, q, Asked(k, |deleted|, deletedCount, allow), eps, seen)
  {
    hide GraphOK, Nearest, Rising, Keep, Descent, Visits, Kept, Asked;
    var hits;
    var want := AskFor(k, |index.nodes|, deletedCount, allow);
    hits, eps, seen := index.Search(q, want);
    ghost var d := DistancesTo(index.dist, Data(index.nodes), q);
    if index.nodes == [] {
      seen := [];
      NothingNearest(d, Asked(k, 0, deletedCount, allow));
    } else {
      VisitsOnce(index.cfg, index.dist, index.nodes, q, Asked(k, |deleted|, deletedCount, allow),
                 eps[index.maxLayer], seen);
    }
    out := CollectAmong(hits, k, deleted, deletedCount, allow, d, seen);
  }

  // A search of the graph for `want` nodes: the way down, and what was visited at the end of it.
  ghost predicate Toured(index: HnswIndex, q: HnswIndexes.Vec, want: nat, eps: seq<nat>, seen: seq<nat>)
    reads index
  {
    && |eps| == index.maxLayer + 1 > 0
    && Descent(index.dist, index.nodes, q, index.entry, index.maxLayer, 0, eps)
    && Visits(index.cfg, index.dist, index.nodes, q, want, eps[index.maxLayer], seen)
  }

  lemma NothingNearest(d: seq<Dist>, want: nat)
    ensures Nearest(Listing([], d), want, []) && Distinct<nat>([])
  {
    assert Listing([], d) == [];
    assert NoneNearer([], []);
  }

  // The rows of the lists that a search probes.
  ghost function ProbedIds(index: IvfIndex, order: seq<nat>): seq<nat>
    reads index
    requires AllBelow(order, |index.lists|)
  {
    Flatten<nat>(Rows(index.lists, order[..Min(index.nprobe, |order|)]))
  }

  /** `collect_` over inverted lists: the K nearest matching rows of the probed lists. */
  method CollectLists(index: IvfIndex, dc: seq<Dist>, d: seq<Dist>, k: nat, deleted: seq<bool>, deletedCount: nat,
                      allow: Option<seq<nat>>)
    returns (out: seq<Entry>, ghost order: seq<nat>)
    requires index.Valid() && index.trained && |d| == index.size && |dc| == |index.lists| > 0
    requires k > 0 && |deleted| == |d| && deletedCount == CountDeleted(deleted)
    requires allow.Some? ==> forall i :: 0 <= i < |allow.value| ==> allow.value[i] < |d|
    requires Asked(k, |d|, deletedCount, allow) > 0
    ensures multiset(order) == multiset(Count(|dc|)) && AllBelow(order, |index.lists|)
    ensures forall p, q :: 0 <= p < index.nprobe <= q < |order| ==> dc[order[p]] <= dc[order[q]]
    ensures allow.None? || ExactList(allow.value, deleted) ==>
      && (forall i :: 0 <= i < |ProbedIds(index, order)| ==> ProbedIds(index, order)[i] < |d|)
      && Nearest(Keep(Listing(ProbedIds(index, order), d), Kept(deleted, allow)), k, out)
    ensures Distinct(IdsOf(out)) && forall o :: o in out ==> o.id < |d| && Kept(deleted, allow)[o.id]
  {
    hide Nearest, Rising, Keep, Kept, Partition, Asked;
    var hits;
    var want := AskFor(k, |d|, deletedCount, allow);
    hits, order := index.Search(dc, d, want);
    ProbedDistinct(index.lists, index.size, order, Min(index.nprobe, |order|));
    out := CollectAmong(hits, k, deleted, deletedCount, allow, d, ProbedIds(index, order));
  }

  // No row is in two lists.
  lemma ProbedDistinct(lists: seq<seq<nat>>, n: nat, order: seq<nat>, p: nat)
    requires Partition(lists, n) && multiset(order) == multiset(Count(|lists|)) && AllBelow(order, |lists|)
    requires p <= |order|
    ensures Distinct(Flatten<nat>(Rows(lists, order[..p])))
  {
    hide Distinct, Flatten;
    VisitOrder(lists, order, Count(|lists|));
    assert Rows(lists, Count(|lists|)) == lists;
    FirstRows(lists, order, p);
    var a: seq<nat> := Flatten<nat>(Rows(lists, order[..p]));
    forall id: nat ensures multiset(a)[id] <= 1 {
      assert multiset(Flatten<nat>(lists))[id] <= 1;
    }
    OnceIsDistinct(a);
  }

  lemma FirstRows(lists: seq<seq<nat>>, order: seq<nat>, p: nat)
    requires AllBelow(order, |lists|) && p <= |order|
    ensures multiset(Flatten<nat>(Rows(lists, order[..p]))) <= multiset(Flatten<nat>(Rows(lists, order)))
  {
    hide Flatten;
    assert Rows(lists, order) == Rows(lists, order[..p]) + Rows(lists, order[p..]);
    FlattenConcat<nat>(Rows(lists, order[..p]), Rows(lists, order[p..]));
  }

  /** A filtered search of a database whose index is the graph. By scanning the matches it is
      exact; by dropping non-matches it is the K nearest matching rows among those visited,
      asked for K and as many more as there are rows off the list of matches. */
  method SearchGraphWhere(db: VDB, index: HnswIndex, q: HnswIndexes.Vec, k: nat, p: MetaTable.Predicate, pre: bool)
    returns (r: Found, ghost allow: seq<nat>, ghost eps: seq<nat>, ghost seen: seq<nat>)
    requires db.Valid() && index.Valid() && Data(index.nodes) == db.vectors && k > 0 && p.attr < |db.schema|
    ensures p.attr < |db.meta.columns| && p.attr < |db.meta.trails|
    ensures Distinct(seen) && forall i :: 0 <= i < |seen| ==> seen[i] < |db.vectors|
    ensures var c, d := db.meta.columns[p.attr], DistancesTo(index.dist, db.vectors, q);
      && Sized(c, |db.meta.live|) && |c.present| == |db.meta.live|
      && (r.Mistyped? <==> !Suits(c, p))
      && (r.NotResolved? <==> Suits(c, p) && p.Range? && !db.schema[p.attr].indexed)
      && (r.Hits? && Untouched(c, db.meta.live, db.meta.trails[p.attr], p) ==>
            if pre && db.vectors != [] then Nearest(Matching(d, Matches(c, db.meta.live, p)), k, r.hits)
            else Nearest(Keep(Listing(seen, d), Matches(c, db.meta.live, p)), k, r.hits))
      && (r.Hits? ==> (Answers(c, db.meta.live, p, allow) <==> Untouched(c, db.meta.live, db.meta.trails[p.attr], p)))
    ensures r.Hits? && !pre && db.vectors != [] ==> Toured(index, q, Want(k, |db.vectors|, |allow|), eps, seen)
  {
    hide Nearest, Matching, Untouched, Answers, TableOK, AllPending, Held, Bounded, LiveIds, ColumnOK, Holds, Suits,
      Records, GraphOK, Keep, Kept, Rising, Toured, Want;
    ghost var c := db.meta.columns[p.attr];
    assert FieldOK(db.schema[p.attr], c, db.meta.live, db.meta.trails[p.attr]);
    ColumnFacts(c, db.meta.live, db.meta.trails[p.attr]);
    TombstonesCounted(db.meta.live);
    TableRows(db.pending, db.extToInt, db.intToExt, db.deleted);
    allow, eps, seen := [], [], [];
    var resolved := db.meta.Resolve(p, db.deleted);
    if resolved.Mismatch? { return Mistyped, [], [], []; }
    if resolved.Unresolved? { return NotResolved, [], [], []; }
    allow := resolved.ids;
    if Untouched(c, db.meta.live, db.meta.trails[p.attr], p) { AnswersAreExact(c, db.meta.live, p, allow); }
    var hits;
    if pre && db.vectors != [] {
      hits := PrefilterScan(DistancesTo(index.dist, db.vectors, q), k, resolved.ids);
      ScanIsExact(DistancesTo(index.dist, db.vectors, q), k, db.deleted, allow, hits);
    } else {
      hits, eps, seen := CollectGraph(index, q, k, db.deleted, db.deletedCount, Some(resolved.ids));
    }
    r := Hits(hits);
  }
}
