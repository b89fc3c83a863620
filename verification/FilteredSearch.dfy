/** Brute-force search, and the three ways to search among the rows that match a predicate:
    drop non-matches from an over-fetched result, scan the matches alone, or let a planner
    choose between the two. */
module FilteredSearch {
  import opened Basics
  import opened TopK

  // Every row with its distance to the query.
  function Ranked(d: seq<Dist>): (es: seq<Entry>)
    ensures |es| == |d| && forall i :: 0 <= i < |es| ==> es[i] == Entry(i, d[i])
  {
    seq(|d|, i requires 0 <= i < |d| => Entry(i, d[i]))
  }

  // The numbers of all rows, in order.
  function Count(n: nat): (r: seq<nat>)
    ensures |r| == n && forall i :: 0 <= i < n ==> r[i] == i
  {
    seq(n, i => i)
  }

  // The rows of an allowlist, in its order.
  function Listing(ids: seq<nat>, d: seq<Dist>): (es: seq<Entry>)
    requires forall i :: 0 <= i < |ids| ==> ids[i] < |d|
    ensures |es| == |ids| && forall i :: 0 <= i < |es| ==> es[i] == Entry(ids[i], d[ids[i]])
  {
    seq(|ids|, i requires 0 <= i < |ids| => Entry(ids[i], d[ids[i]]))
  }

  // ----- the library routines the scans call -----

  method FirstNearest(a: array<Entry>, i: nat) returns (m: nat)
    requires i < a.Length
    ensures i <= m < a.Length && forall q :: i <= q < a.Length ==> a[m].dist <= a[q].dist
  {
    m := i;
    for j := i + 1 to a.Length
      invariant i <= m < a.Length && forall q :: i <= q < j ==> a[m].dist <= a[q].dist
    {
      if a[j].dist < a[m].dist { m := j; }
    }
  }

  method Swap(a: array<Entry>, i: nat, m: nat)
    requires i < a.Length && m < a.Length
    modifies a
    ensures a[i] == old(a[m]) && a[m] == old(a[i]) && forall q :: 0 <= q < a.Length && q != i && q != m ==>
      a[q] == old(a[q])
    ensures multiset(a[..]) == multiset(old(a[..]))
  {
    a[i], a[m] := a[m], a[i];
  }

  // `std::nth_element` by distance: none of the first k is farther than any of the others.
  method NthElement(a: array<Entry>, k: nat)
    requires k <= a.Length
    modifies a
    ensures multiset(a[..]) == multiset(old(a[..]))
    ensures forall i, j :: 0 <= i < k <= j < a.Length ==> a[i].dist <= a[j].dist
  {
    for i := 0 to k
      invariant multiset(a[..]) == multiset(old(a[..]))
      invariant forall p, q :: 0 <= p < i <= q < a.Length ==> a[p].dist <= a[q].dist
    {
      var m := FirstNearest(a, i);
      Swap(a, i, m);
    }
  }

  // `std::sort` by distance.
  method SortByDistance(es: seq<Entry>) returns (r: seq<Entry>)
    ensures Rising(r) && multiset(r) == multiset(es)
  {
    r := [];
    for i := 0 to |es|
      invariant Rising(r) && multiset(r) == multiset(es[..i])
    {
      assert es[..i + 1] == es[..i] + [es[i]];
      r := InsertByDistance(r, es[i]);
    }
    assert es[..|es|] == es;
  }

  method InsertByDistance(es: seq<Entry>, e: Entry) returns (r: seq<Entry>)
    requires Rising(es)
    ensures Rising(r) && multiset(r) == multiset(es) + multiset{e}
  {
    var p: nat := |es|;
    while p > 0 && e.dist < es[p - 1].dist
      invariant p <= |es| && (p < |es| ==> e.dist < es[p].dist)
    {
      p := p - 1;
    }
    InsertRising(es, p, e);
    InsertMultiset(es, p, e);
    r := InsertAt(es, p, e);
  }

  lemma InsertMultiset(es: seq<Entry>, p: nat, e: Entry)
    requires p <= |es|
    ensures multiset(InsertAt(es, p, e)) == multiset(es) + multiset{e}
  {
    assert es == es[..p] + es[p..];
  }

  lemma RisingAt(es: seq<Entry>, i: nat, j: nat)
    requires Rising(es) && i <= j < |es|
    ensures es[i].dist <= es[j].dist
  {
  }

  lemma InsertRising(es: seq<Entry>, p: nat, e: Entry)
    requires Rising(es) && p <= |es| && (p > 0 ==> es[p - 1].dist <= e.dist) && (p < |es| ==> e.dist < es[p].dist)
    ensures Rising(InsertAt(es, p, e))
  {
    var r := InsertAt(es, p, e);
    forall i, j | 0 <= i <= j < |r| ensures r[i].dist <= r[j].dist { InsertRisingAt(es, p, e, i, j); }
  }

  lemma InsertRisingAt(es: seq<Entry>, p: nat, e: Entry, i: nat, j: nat)
    requires Rising(es) && p <= |es| && (p > 0 ==> es[p - 1].dist <= e.dist) && (p < |es| ==> e.dist < es[p].dist)
    requires i <= j <= |es|
    ensures InsertAt(es, p, e)[i].dist <= InsertAt(es, p, e)[j].dist
  {
    hide Rising;
    if i < p {
      if j < p { RisingAt(es, i, j); } else { RisingAt(es, i, p - 1); if j > p { RisingAt(es, p, j - 1); } }
    } else if i == p {
      if j > p { RisingAt(es, p, j - 1); }
    } else {
      RisingAt(es, i - 1, j - 1);
    }
  }

  // Partition, cut, sort: the K nearest of an array.
  method TakeNearest(a: array<Entry>, k: nat) returns (out: seq<Entry>)
    modifies a
    ensures Nearest(old(a[..]), k, out)
  {
    ghost var all := a[..];
    var n := Min(k, a.Length);
    NthElement(a, n);
    var head := a[..n];
    out := SortByDistance(head);
    CutIsNearest(all, a[..], k, n, out);
  }

  lemma CutIsNearest(all: seq<Entry>, parted: seq<Entry>, k: nat, n: nat, out: seq<Entry>)
    requires n == Min(k, |all|) && |parted| == |all| && multiset(parted) == multiset(all)
    requires forall i, j :: 0 <= i < n <= j < |parted| ==> parted[i].dist <= parted[j].dist
    requires Rising(out) && multiset(out) == multiset(parted[..n])
    ensures Nearest(all, k, out)
  {
    assert parted == parted[..n] + parted[n..];
    assert multiset(parted) == multiset(parted[..n]) + multiset(parted[n..]);
    assert |out| == |multiset(out)| && |parted[..n]| == |multiset(parted[..n])|;
    forall e, o | multiset(all)[e] > multiset(out)[e] && o in out ensures o.dist <= e.dist {
      assert e in multiset(parted[n..]) && o in multiset(parted[..n]);
      var j :| n <= j < |parted| && parted[j] == e;
      var i :| 0 <= i < n && parted[i] == o;
    }
    assert NoneNearer(all, out);
  }

  // `BruteIndex::search`: the oracle.
  method BruteSearch(d: seq<Dist>, k: nat) returns (out: seq<Entry>)
    ensures Nearest(Ranked(d), k, out)
  {
    var all := new Entry[|d|](i requires 0 <= i < |d| => Entry(i, d[i]));
    assert all[..] == Ranked(d);
    out := TakeNearest(all, k);
  }

  // `prefilter_scan_`: the same over the rows of the allowlist alone.
  method PrefilterScan(d: seq<Dist>, k: nat, allow: seq<nat>) returns (out: seq<Entry>)
    requires forall i :: 0 <= i < |allow| ==> allow[i] < |d|
    ensures Nearest(Listing(allow, d), k, out)
  {
    var all := new Entry[|allow|](i requires 0 <= i < |allow| => Entry(allow[i], d[allow[i]]));
    assert all[..] == Listing(allow, d);
    out := TakeNearest(all, k);
  }

  // ----- over-fetch and drop -----

  // How much to ask of the index. With more ids than rows the unsigned difference wraps to
  // a number beyond the size of the index, unless K brings it back.
  function Want(k: nat, n: nat, allowed: nat): nat {
    if k + n >= allowed then Min(k + n - allowed, n) else n
  }

  function Kept(deleted: seq<bool>, allow: Option<seq<nat>>): (keep: seq<bool>)
    ensures |keep| == |deleted|
    ensures forall i :: 0 <= i < |keep| ==> keep[i] == (!deleted[i] && (allow.None? || i in allow.value))
  {
    seq(|deleted|, i requires 0 <= i < |deleted| => !deleted[i] && (allow.None? || i in allow.value))
  }

  function CountDeleted(deleted: seq<bool>): nat {
    if deleted == [] then 0
    else CountDeleted(deleted[..|deleted| - 1]) + (if deleted[|deleted| - 1] then 1 else 0)
  }

  // The rows that are kept, as candidates.
  function Matching(d: seq<Dist>, keep: seq<bool>): seq<Entry> { Keep(Ranked(d), keep) }

  // `collect_` after the index has answered.
  method DropOthers(hits: seq<Entry>, k: nat, keep: seq<bool>) returns (out: seq<Entry>)
    requires k > 0
    ensures var kept := Keep(hits, keep); out == kept[..Min(k, |kept|)]
  {
    out := [];
    for i := 0 to |hits|
      invariant out == Keep(hits[..i], keep) && |out| < k
    {
      assert hits[..i + 1][..i] == hits[..i];
      if In(keep, hits[i].id) {
        out := out + [hits[i]];
        if |out| == k {
          KeepPrefix(hits, i + 1, keep);
          return;
        }
      }
    }
    assert hits[..|hits|] == hits;
  }

  lemma {:induction false} KeepPrefix(es: seq<Entry>, n: nat, keep: seq<bool>)
    requires n <= |es|
    ensures Keep(es[..n], keep) <= Keep(es, keep)
    decreases |es|
  {
    if n == |es| {
      assert es[..n] == es;
    } else {
      KeepPrefix(es[..|es| - 1], n, keep);
      assert es[..|es| - 1][..n] == es[..n];
    }
  }

  // ----- an allowlist that is exact -----

  ghost predicate ExactList(allow: seq<nat>, deleted: seq<bool>) {
    Distinct(allow) && forall i :: 0 <= i < |allow| ==> allow[i] < |deleted| && !deleted[allow[i]]
  }

  lemma RankedOnce(d: seq<Dist>, e: Entry)
    ensures multiset(Ranked(d))[e] == if e.id < |d| && e.dist == d[e.id] then 1 else 0
    decreases |d|
  {
    if d == [] {
      assert Ranked(d) == [];
    } else {
      var n := |d| - 1;
      RankedOnce(d[..n], e);
      assert Ranked(d) == Ranked(d[..n]) + [Entry(n, d[n])];
      assert multiset(Ranked(d)) == multiset(Ranked(d[..n])) + multiset{Entry(n, d[n])};
    }
  }

  lemma {:induction false} ListingOnce(allow: seq<nat>, d: seq<Dist>, e: Entry)
    requires forall i :: 0 <= i < |allow| ==> allow[i] < |d|
    ensures Distinct(allow) ==>
      multiset(Listing(allow, d))[e] == if e.id in allow && e.dist == d[e.id] then 1 else 0
    decreases |allow|
  {
    if allow == [] {
      assert Listing(allow, d) == [];
    } else {
      var rest, last := allow[..|allow| - 1], allow[|allow| - 1];
      ListingOnce(rest, d, e);
      assert allow == rest + [last];
      assert Listing(allow, d) == Listing(rest, d) + [Entry(last, d[last])];
      assert multiset(Listing(allow, d)) == multiset(Listing(rest, d)) + multiset{Entry(last, d[last])};
      assert Distinct(allow) ==> Distinct(rest) && last !in rest;
    }
  }

  // An exact list and its bitmap name the same candidates.
  lemma ListIsBitmap(d: seq<Dist>, deleted: seq<bool>, allow: seq<nat>)
    requires |d| == |deleted| && ExactList(allow, deleted)
    ensures multiset(Listing(allow, d)) == multiset(Matching(d, Kept(deleted, Some(allow))))
    ensures |Matching(d, Kept(deleted, Some(allow)))| == |allow|
  {
    var keep := Kept(deleted, Some(allow));
    forall e ensures multiset(Listing(allow, d))[e] == multiset(Matching(d, keep))[e] {
      ListingOnce(allow, d, e);
      RankedOnce(d, e);
      KeepCounts(Ranked(d), keep, e);
    }
    assert multiset(Listing(allow, d)) == multiset(Matching(d, keep));
    assert |multiset(Listing(allow, d))| == |Listing(allow, d)|;
    assert |multiset(Matching(d, keep))| == |Matching(d, keep)|;
  }

  lemma NearestByMultiset(all: seq<Entry>, all': seq<Entry>, k: nat, out: seq<Entry>)
    requires Nearest(all, k, out) && multiset(all) == multiset(all')
    ensures Nearest(all', k, out)
  {
    assert |multiset(all)| == |all| && |multiset(all')| == |all'|;
  }

  lemma {:induction false} LiveCount(d: seq<Dist>, deleted: seq<bool>)
    requires |d| == |deleted|
    ensures |Matching(d, Kept(deleted, None))| == |d| - CountDeleted(deleted)
    decreases |d|
  {
    if d == [] {
      assert Ranked(d) == [];
    } else {
      var n := |d| - 1;
      LiveCount(d[..n], deleted[..n]);
      assert Ranked(d)[..n] == Ranked(d[..n]);
      SameKeep(Ranked(d[..n]), Kept(deleted, None), Kept(deleted[..n], None));
    }
  }

  lemma {:induction false} SameKeep(es: seq<Entry>, a: seq<bool>, b: seq<bool>)
    requires forall i :: 0 <= i < |es| ==> In(a, es[i].id) == In(b, es[i].id)
    ensures Keep(es, a) == Keep(es, b)
  {
    if es != [] { SameKeep(es[..|es| - 1], a, b); }
  }

  // ----- the three searches -----

  // How much `collect_` asks of the index: without a predicate the margin is the number of
  // tombstones, with one the number of rows that are not on its allowlist.
  function Asked(k: nat, n: nat, deletedCount: nat, allow: Option<seq<nat>>): nat {
    if allow.Some? then Want(k, n, |allow.value|) else Min(k + deletedCount, n)
  }

  // A difference that falls below zero wraps round, and is then capped.
  method AskFor(k: nat, n: nat, deletedCount: nat, allow: Option<seq<nat>>) returns (want: nat)
    ensures want == Asked(k, n, deletedCount, allow)
  {
    if allow.Some? {
      var margin: int := n - |allow.value|;
      want := if 0 <= k + margin < n then k + margin else n;
    } else {
      want := if k + deletedCount < n then k + deletedCount else n;
    }
  }

  /** `collect_` over any index. The hits are the nearest of the rows that the index visited;
      then the result is the K nearest of those visited rows that match. */
  method CollectAmong(hits: seq<Entry>, k: nat, deleted: seq<bool>, deletedCount: nat, allow: Option<seq<nat>>,
                      ghost d: seq<Dist>, ghost seen: seq<nat>)
    returns (out: seq<Entry>)
    requires k > 0 && |deleted| == |d| && deletedCount == CountDeleted(deleted)
    requires allow.Some? ==> forall i :: 0 <= i < |allow.value| ==> allow.value[i] < |d|
    requires Distinct(seen) && forall i :: 0 <= i < |seen| ==> seen[i] < |d|
    requires Nearest(Listing(seen, d), Asked(k, |d|, deletedCount, allow), hits)
    ensures allow.None? || ExactList(allow.value, deleted) ==>
      Nearest(Keep(Listing(seen, d), Kept(deleted, allow)), k, out)
    ensures Rising(out) && forall o :: o in out ==> o.id < |d| && Kept(deleted, allow)[o.id]
    ensures Distinct(IdsOf(out))
  {
    hide Keep, Nearest, Rising, Matching, Distinct;
    var keep := Kept(deleted, allow);
    out := DropOthers(hits, k, keep);
    if allow.None? {
      LiveCount(d, deleted);
    } else if ExactList(allow.value, deleted) {
      ListIsBitmap(d, deleted, allow.value);
    }
    ghost var want := Asked(k, |d|, deletedCount, allow);
    if allow.None? || ExactList(allow.value, deleted) { MarginAmong(d, seen, keep, k, want, hits); }
    SeenAreRows(d, seen);
    NearestParts(Listing(seen, d), want, hits);
    HitsAreRows(d, hits, keep, out);
  }

  /** `collect_` over the exact index: all rows are visited, so the result is the K nearest of
      all rows that match. */
  method Collect(d: seq<Dist>, k: nat, deleted: seq<bool>, deletedCount: nat, allow: Option<seq<nat>>)
    returns (out: seq<Entry>)
    requires k > 0 && |deleted| == |d| && deletedCount == CountDeleted(deleted)
    requires allow.Some? ==> forall i :: 0 <= i < |allow.value| ==> allow.value[i] < |d|
    ensures allow.None? || ExactList(allow.value, deleted) ==> Nearest(Matching(d, Kept(deleted, allow)), k, out)
    ensures Rising(out) && forall o :: o in out ==> o.id < |d| && Kept(deleted, allow)[o.id]
    ensures Distinct(IdsOf(out))
  {
    hide Keep, Nearest, Rising, Distinct;
    var want := AskFor(k, |d|, deletedCount, allow);
    var hits := BruteSearch(d, want);
    AllSeen(d);
    out := CollectAmong(hits, k, deleted, deletedCount, allow, d, Count(|d|));
  }

  lemma AllSeen(d: seq<Dist>)
    ensures Distinct(Count(|d|)) && Listing(Count(|d|), d) == Ranked(d)
  {
  }

  // What was visited are rows, each at most once.
  lemma SeenAreRows(d: seq<Dist>, seen: seq<nat>)
    requires Distinct(seen) && forall i :: 0 <= i < |seen| ==> seen[i] < |d|
    ensures multiset(Listing(seen, d)) <= multiset(Ranked(d))
  {
    hide Distinct;
    forall e ensures multiset(Listing(seen, d))[e] <= multiset(Ranked(d))[e] {
      ListingOnce(seen, d, e);
      RankedOnce(d, e);
      if e.id in seen { assert e.id < |d|; }
    }
  }

  // The margin that is enough for all rows is enough for those visited.
  lemma MarginAmong(d: seq<Dist>, seen: seq<nat>, keep: seq<bool>, k: nat, want: nat, hits: seq<Entry>)
    requires Distinct(seen) && forall i :: 0 <= i < |seen| ==> seen[i] < |d|
    requires Nearest(Listing(seen, d), want, hits) && want >= Min(k + (|d| - |Matching(d, keep)|), |d|)
    ensures var kept := Keep(hits, keep); Nearest(Keep(Listing(seen, d), keep), k, kept[..Min(k, |kept|)])
  {
    hide Keep, Nearest, Distinct;
    SeenAreRows(d, seen);
    DroppedMonotone(Listing(seen, d), Ranked(d), keep);
    assert |multiset(Listing(seen, d))| == |Listing(seen, d)| && |multiset(Ranked(d))| == |Ranked(d)|;
    SubSize(Listing(seen, d), Ranked(d));
    OverfetchSuffices(Listing(seen, d), keep, k, want, hits);
  }

  lemma Margin(d: seq<Dist>, keep: seq<bool>, k: nat, want: nat, hits: seq<Entry>)
    requires Nearest(Ranked(d), want, hits) && want >= Min(k + (|d| - |Matching(d, keep)|), |d|)
    ensures var kept := Keep(hits, keep); Nearest(Matching(d, keep), k, kept[..Min(k, |kept|)])
  {
    OverfetchSuffices(Ranked(d), keep, k, want, hits);
  }

  function IdsOf(es: seq<Entry>): (r: seq<nat>)
    ensures |r| == |es| && forall i :: 0 <= i < |r| ==> r[i] == es[i].id
  {
    seq(|es|, i requires 0 <= i < |es| => es[i].id)
  }

  lemma {:induction false} SameIds(a: seq<Entry>, b: seq<Entry>)
    requires multiset(a) == multiset(b)
    ensures multiset(IdsOf(a)) == multiset(IdsOf(b))
    decreases |a|
  {
    hide IdsOf;
    if a == [] {
      assert |multiset(b)| == |b|;
      assert a == b;
    } else {
      var a', last, x, y := TakeLastEntry(a, b);
      SameIds(a', x + y);
      IdsAround(a', last, []);
      assert a' + [last] + [] == a && a' + [] == a';
      IdsAround(x, last, y);
    }
  }

  lemma TakeLastEntry(a: seq<Entry>, b: seq<Entry>) returns (a': seq<Entry>, last: Entry, x: seq<Entry>, y: seq<Entry>)
    requires multiset(a) == multiset(b) && a != []
    ensures a == a' + [last] && b == x + [last] + y && multiset(a') == multiset(x + y) && |a'| == |a| - 1
  {
    a', last := a[..|a| - 1], a[|a| - 1];
    assert last in multiset(b);
    var j :| 0 <= j < |b| && b[j] == last;
    x, y := b[..j], b[j + 1..];
    WithoutOne(a, b, j);
  }

  lemma IdsAround(x: seq<Entry>, e: Entry, y: seq<Entry>)
    ensures multiset(IdsOf(x + [e] + y)) == multiset(IdsOf(x + y)) + multiset{e.id}
  {
    assert IdsOf(x + [e] + y) == IdsOf(x) + [e.id] + IdsOf(y);
    assert IdsOf(x + y) == IdsOf(x) + IdsOf(y);
  }

  // What is returned are rows that are kept, each at most once.
  lemma HitsAreRows(d: seq<Dist>, hits: seq<Entry>, keep: seq<bool>, out: seq<Entry>)
    requires Rising(hits) && multiset(hits) <= multiset(Ranked(d)) && out <= Keep(hits, keep)
    ensures Rising(out) && Distinct(IdsOf(out)) && forall o :: o in out ==> o.id < |d| && In(keep, o.id)
  {
    KeepRising(hits, keep);
    var kept := Keep(hits, keep);
    forall o | o in out ensures o.id < |d| && In(keep, o.id) && o.dist == d[o.id] {
      assert o in kept;
      KeepCounts(hits, keep, o);
      RankedOnce(d, o);
      assert o in multiset(kept);
    }
    forall i, j | 0 <= i < j < |out| ensures out[i].id != out[j].id {
      if out[i].id == out[j].id {
        assert out[i] in out && out[j] in out;
        assert out[i] == out[j] && kept[i] == kept[j];
        Twice(kept, i, j);
        KeepCounts(hits, keep, out[i]);
        RankedOnce(d, out[i]);
      }
    }
  }

  lemma ScanIsExact(d: seq<Dist>, k: nat, deleted: seq<bool>, allow: seq<nat>, out: seq<Entry>)
    requires |deleted| == |d| && forall i :: 0 <= i < |allow| ==> allow[i] < |d|
    requires Nearest(Listing(allow, d), k, out)
    ensures ExactList(allow, deleted) ==> Nearest(Matching(d, Kept(deleted, Some(allow))), k, out)
  {
    hide Nearest, Matching, Distinct;
    if ExactList(allow, deleted) {
      ListIsBitmap(d, deleted, allow);
      NearestByMultiset(Listing(allow, d), Matching(d, Kept(deleted, Some(allow))), k, out);
    }
  }

  /** `collect_auto_`: whatever the planner chooses, the result is the K nearest of the rows
      that match. */
  method Auto(d: seq<Dist>, k: nat, deleted: seq<bool>, deletedCount: nat, allow: seq<nat>, pre: bool)
    returns (out: seq<Entry>)
    requires k > 0 && |deleted| == |d| && deletedCount == CountDeleted(deleted)
    requires forall i :: 0 <= i < |allow| ==> allow[i] < |d|
    ensures ExactList(allow, deleted) ==> Nearest(Matching(d, Kept(deleted, Some(allow))), k, out)
  {
    hide Keep, Nearest, Matching, Distinct;
    if |d| > 0 && pre {
      out := PrefilterScan(d, k, allow);
      ScanIsExact(d, k, deleted, allow, out);
    } else {
      out := Collect(d, k, deleted, deletedCount, Some(allow));
    }
  }

  // A result that dropping non-matches may give, and one that scanning the matches may.
  ghost predicate PostResult(d: seq<Dist>, k: nat, deleted: seq<bool>, allow: seq<nat>, out: seq<Entry>) {
    |deleted| == |d| &&
    exists hits :: Nearest(Ranked(d), Want(k, |d|, |allow|), hits) &&
      out == Cut(Keep(hits, Kept(deleted, Some(allow))), k)
  }

  ghost predicate PreResult(d: seq<Dist>, k: nat, allow: seq<nat>, out: seq<Entry>) {
    (forall i :: 0 <= i < |allow| ==> allow[i] < |d|) && Nearest(Listing(allow, d), k, out)
  }

  function Cut(es: seq<Entry>, k: nat): seq<Entry> { es[..Min(k, |es|)] }

  // The planner's choice never changes the answer: the two give the same distances.
  ghost predicate Agree(deleted: seq<bool>, allow: seq<nat>) {
    forall d, k, post, pre :: k > 0 && PostResult(d, k, deleted, allow, post) && PreResult(d, k, allow, pre) ==>
      Dists(post) == Dists(pre)
  }

  lemma ExactAgree(deleted: seq<bool>, allow: seq<nat>)
    requires ExactList(allow, deleted)
    ensures Agree(deleted, allow)
  {
    hide Keep, Nearest, Matching, Distinct;
    forall d, k, post, pre | k > 0 && PostResult(d, k, deleted, allow, post) && PreResult(d, k, allow, pre)
      ensures Dists(post) == Dists(pre)
    {
      var keep := Kept(deleted, Some(allow));
      var hits :| Nearest(Ranked(d), Want(k, |d|, |allow|), hits) && post == Cut(Keep(hits, keep), k);
      ListIsBitmap(d, deleted, allow);
      Margin(d, keep, k, Want(k, |d|, |allow|), hits);
      SameDistances(Matching(d, keep), Listing(allow, d), k, post, pre);
    }
  }

  // ----- an allowlist with repeats -----

  lemma ListingCovers(d: seq<Dist>, deleted: seq<bool>, allow: seq<nat>)
    requires |d| == |deleted| && forall i :: 0 <= i < |allow| ==> allow[i] < |d| && !deleted[allow[i]]
    requires !Distinct(allow)
    ensures |Matching(d, Kept(deleted, Some(allow)))| < |allow|
  {
    hide Keep;
    var keep := Kept(deleted, Some(allow));
    var i, j :| 0 <= i < j < |allow| && allow[i] == allow[j];
    var es, twice := Listing(allow, d), Listing(allow, d)[i];
    Twice(es, i, j);
    forall e ensures multiset(Keep(Ranked(d), keep) + [twice])[e] <= multiset(es)[e] {
      KeepCounts(Ranked(d), keep, e);
      RankedOnce(d, e);
      if e.id in allow && e.id < |d| && e.dist == d[e.id] {
        var q :| 0 <= q < |allow| && allow[q] == e.id;
        assert es[q] == e;
      }
    }
    SubSize(Keep(Ranked(d), keep) + [twice], es);
  }

  function Zeros(n: nat): (d: seq<Dist>)
    ensures |d| == n && forall i :: 0 <= i < n ==> d[i] == 0
  {
    seq(n, _ => 0)
  }

  // When all distances are equal, any prefix will do.
  lemma AnyPrefix(es: seq<Entry>, k: nat)
    requires forall i :: 0 <= i < |es| ==> es[i].dist == 0
    ensures Nearest(es, k, es[..Min(k, |es|)])
  {
    var out := es[..Min(k, |es|)];
    assert es == out + es[|out|..];
    assert multiset(es) == multiset(out) + multiset(es[|out|..]);
    forall e, o | multiset(es)[e] > multiset(out)[e] && o in out ensures o.dist <= e.dist { assert e in multiset(es); }
    assert NoneNearer(es, out);
  }

  /** The choice never matters if and only if the allowlist names no row twice. (Every id is
      a live row, as `resolve` sees to.) */
  lemma AgreeIffDistinct(deleted: seq<bool>, allow: seq<nat>)
    requires forall i :: 0 <= i < |allow| ==> allow[i] < |deleted| && !deleted[allow[i]]
    ensures Agree(deleted, allow) <==> Distinct(allow)
  {
    if Distinct(allow) { ExactAgree(deleted, allow); } else { RepeatsDisagree(deleted, allow); }
  }

  // With a repeat, asking for as many as the list is long tells the two apart.
  lemma RepeatsDisagree(deleted: seq<bool>, allow: seq<nat>)
    requires forall i :: 0 <= i < |allow| ==> allow[i] < |deleted| && !deleted[allow[i]]
    requires !Distinct(allow)
    ensures !Agree(deleted, allow)
  {
    hide Keep, Nearest, Distinct, Matching;
    var d, k, keep := Zeros(|deleted|), |allow|, Kept(deleted, Some(allow));
    var want := Want(k, |d|, |allow|);
    var hits := Ranked(d)[..Min(want, |d|)];
    var post, pre := Cut(Keep(hits, keep), k), Listing(allow, d);
    ListingCovers(d, deleted, allow);
    AnyPrefix(Ranked(d), want);
    AnyPrefix(pre, k);
    assert pre[..Min(k, |pre|)] == pre;
    assert PostResult(d, k, deleted, allow, post);
    assert PreResult(d, k, allow, pre);
    KeptPrefixSize(Ranked(d), |hits|, keep);
    MatchingSize(d, keep);
    assert |Dists(post)| < |Dists(pre)|;
  }

  lemma KeptPrefixSize(es: seq<Entry>, n: nat, keep: seq<bool>)
    requires n <= |es|
    ensures |Keep(es[..n], keep)| <= |Keep(es, keep)|
  {
    KeepPrefix(es, n, keep);
  }

  lemma MatchingSize(d: seq<Dist>, keep: seq<bool>)
    ensures |Matching(d, keep)| == |Keep(Ranked(d), keep)|
  {
  }
}
