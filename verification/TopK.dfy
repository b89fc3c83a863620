/** The K nearest of some candidates: what every search promises, and why two searches that
    keep the promise give the same distances. */
module TopK {
  import opened Basics

  // Distances are only compared.
  type Dist = int
  datatype Entry = Entry(id: nat, dist: Dist)

  function Min(a: nat, b: nat): nat { if a <= b then a else b }

  ghost predicate Rising(es: seq<Entry>) {
    forall i, j :: 0 <= i <= j < |es| ==> es[i].dist <= es[j].dist
  }

  /** out is K of the candidates, or all if there are fewer, in order of distance, and no
      candidate that was left out is nearer. */
  ghost predicate Nearest(all: seq<Entry>, k: nat, out: seq<Entry>) {
    |out| == Min(k, |all|) && Rising(out) && multiset(out) <= multiset(all) && NoneNearer(all, out)
  }

  ghost predicate NoneNearer(all: seq<Entry>, out: seq<Entry>) {
    forall e, o :: multiset(all)[e] > multiset(out)[e] && o in out ==> o.dist <= e.dist
  }

  function Dists(es: seq<Entry>): (r: seq<Dist>)
    ensures |r| == |es| && forall i :: 0 <= i < |r| ==> r[i] == es[i].dist
  {
    seq(|es|, i requires 0 <= i < |es| => es[i].dist)
  }

  // ----- counting by distance -----

  // How many entries are nearer than x.
  function Within(es: seq<Entry>, x: Dist): nat {
    if es == [] then 0 else Within(es[..|es| - 1], x) + (if es[|es| - 1].dist < x then 1 else 0)
  }

  lemma {:induction false} WithinMultiset(a: seq<Entry>, b: seq<Entry>, x: Dist)
    requires multiset(a) == multiset(b)
    ensures Within(a, x) == Within(b, x)
    decreases |a|
  {
    if a == [] {
      assert multiset(b) == multiset(a);
      NoneLeft(b);
    } else {
      var last := a[|a| - 1];
      assert last in multiset(a);
      var j :| 0 <= j < |b| && b[j] == last;
      var b' := b[..j] + b[j + 1..];
      assert b == b[..j] + [last] + b[j + 1..];
      WithoutOne(a, b, j);
      WithinMultiset(a[..|a| - 1], b', x);
      WithinConcat(b[..j] + [last], b[j + 1..], x);
      WithinConcat(b[..j], [last], x);
      WithinConcat(b[..j], b[j + 1..], x);
    }
  }

  lemma WithoutOne(a: seq<Entry>, b: seq<Entry>, j: nat)
    requires multiset(a) == multiset(b) && a != [] && j < |b| && b[j] == a[|a| - 1]
    ensures multiset(a[..|a| - 1]) == multiset(b[..j] + b[j + 1..])
  {
    var last, a', b' := b[j], a[..|a| - 1], b[..j] + b[j + 1..];
    assert a == a' + [last];
    assert b == b[..j] + [last] + b[j + 1..];
    forall e ensures multiset(a')[e] == multiset(b')[e] {
      assert multiset(a)[e] == multiset(a')[e] + multiset{last}[e];
      assert multiset(b)[e] == multiset(b')[e] + multiset{last}[e];
    }
  }

  lemma NoneLeft(b: seq<Entry>)
    requires multiset(b) == multiset{}
    ensures b == []
  {
    assert |multiset(b)| == |b|;
  }

  lemma {:induction false} WithinConcat(a: seq<Entry>, b: seq<Entry>, x: Dist)
    ensures Within(a + b, x) == Within(a, x) + Within(b, x)
  {
    if b == [] {
      assert a + b == a;
    } else {
      WithinConcat(a, b[..|b| - 1], x);
      assert (a + b)[..|a + b| - 1] == a + b[..|b| - 1];
    }
  }

  // In rising order, entry i is nearer than x exactly when more than i entries are.
  lemma {:induction false} RisingRank(es: seq<Entry>, x: Dist, i: nat)
    requires Rising(es) && i < |es|
    ensures es[i].dist < x <==> i < Within(es, x)
    ensures Within(es, x) <= |es|
  {
    var n := |es| - 1;
    if n > 0 {
      var rest := es[..n];
      RisingRank(rest, x, Min(i, n - 1));
      RisingRank(rest, x, n - 1);
      if i == n { assert es[n - 1].dist <= es[n].dist; }
    }
  }

  // The candidates as a whole: those that were chosen and those left out.
  lemma Split(all: seq<Entry>, k: nat, out: seq<Entry>) returns (rest: seq<Entry>)
    requires Nearest(all, k, out)
    ensures multiset(out + rest) == multiset(all)
    ensures forall e, o :: e in rest && o in out ==> o.dist <= e.dist
  {
    rest := Listed(multiset(all) - multiset(out));
    assert multiset(out + rest) == multiset(out) + multiset(rest);
    forall e | e in rest ensures multiset(all)[e] > multiset(out)[e] { assert e in multiset(rest); }
  }

  lemma Listed(m: multiset<Entry>) returns (s: seq<Entry>)
    ensures multiset(s) == m
    decreases |m|
  {
    if m == multiset{} {
      s := [];
    } else {
      var e :| e in m;
      var t := Listed(m - multiset{e});
      s := t + [e];
      assert multiset(s) == multiset(t) + multiset{e};
    }
  }

  // A chosen entry's rank counts the same among the chosen as among all.
  lemma ChosenRank(all: seq<Entry>, k: nat, out: seq<Entry>, i: nat, x: Dist)
    requires Nearest(all, k, out) && i < |out|
    ensures out[i].dist < x <==> i < Within(all, x)
  {
    var rest := Split(all, k, out);
    WithinMultiset(out + rest, all, x);
    WithinConcat(out, rest, x);
    RisingRank(out, x, i);
    if Within(out, x) <= i {
      forall e | e in rest ensures x <= e.dist { assert out[i] in out; }
      NoneWithin(rest, x);
    }
  }

  lemma {:induction false} NoneWithin(es: seq<Entry>, x: Dist)
    requires forall e :: e in es ==> x <= e.dist
    ensures Within(es, x) == 0
  {
    if es != [] {
      assert es[|es| - 1] in es;
      NoneWithin(es[..|es| - 1], x);
    }
  }

  lemma SameRank(all: seq<Entry>, all': seq<Entry>, k: nat, a: seq<Entry>, b: seq<Entry>, i: nat, x: Dist)
    requires Nearest(all, k, a) && Nearest(all', k, b) && multiset(all) == multiset(all') && i < |a| && i < |b|
    ensures a[i].dist < x <==> b[i].dist < x
  {
    ChosenRank(all, k, a, i, x);
    ChosenRank(all', k, b, i, x);
    WithinMultiset(all, all', x);
  }

  // However ties are broken, the distances are the same.
  lemma SameDistances(all: seq<Entry>, all': seq<Entry>, k: nat, a: seq<Entry>, b: seq<Entry>)
    requires Nearest(all, k, a) && Nearest(all', k, b) && multiset(all) == multiset(all')
    ensures Dists(a) == Dists(b)
  {
    assert |multiset(all)| == |all| && |multiset(all')| == |all'|;
    forall i | 0 <= i < |a| ensures a[i].dist == b[i].dist {
      SameRank(all, all', k, a, b, i, a[i].dist + 1);
      SameRank(all, all', k, a, b, i, b[i].dist + 1);
    }
  }

  // ----- keeping some candidates -----

  predicate In(keep: seq<bool>, id: nat) { id < |keep| && keep[id] }

  function Keep(es: seq<Entry>, keep: seq<bool>): (r: seq<Entry>)
    ensures |r| <= |es|
  {
    if es == [] then []
    else Keep(es[..|es| - 1], keep) + (if In(keep, es[|es| - 1].id) then [es[|es| - 1]] else [])
  }

  lemma {:induction false} KeepCounts(es: seq<Entry>, keep: seq<bool>, e: Entry)
    ensures multiset(Keep(es, keep))[e] == if In(keep, e.id) then multiset(es)[e] else 0
  {
    if es != [] {
      var rest, last := es[..|es| - 1], es[|es| - 1];
      KeepCounts(rest, keep, e);
      assert es == rest + [last];
      assert multiset(es) == multiset(rest) + multiset{last};
      if In(keep, last.id) { assert multiset(Keep(es, keep)) == multiset(Keep(rest, keep)) + multiset{last}; }
    }
  }

  lemma {:induction false} KeepRising(es: seq<Entry>, keep: seq<bool>)
    requires Rising(es)
    ensures Rising(Keep(es, keep))
    ensures forall o :: o in Keep(es, keep) ==> o in es
  {
    if es != [] {
      var rest, last := es[..|es| - 1], es[|es| - 1];
      KeepRising(rest, keep);
      assert forall o :: o in rest ==> o in es;
      forall o | o in Keep(rest, keep) ensures o.dist <= last.dist {
        var i :| 0 <= i < |rest| && rest[i] == o;
        assert es[i].dist <= es[|es| - 1].dist;
      }
    }
  }

  // What is dropped from a part is at most what is dropped from the whole.
  lemma DroppedMonotone(part: seq<Entry>, all: seq<Entry>, keep: seq<bool>)
    requires multiset(part) <= multiset(all)
    ensures |part| - |Keep(part, keep)| <= |all| - |Keep(all, keep)|
    ensures multiset(Keep(part, keep)) <= multiset(Keep(all, keep))
  {
    forall e ensures multiset(Keep(part, keep))[e] <= multiset(Keep(all, keep))[e] {
      KeepCounts(part, keep, e);
      KeepCounts(all, keep, e);
    }
    var dp, da := multiset(part) - multiset(Keep(part, keep)), multiset(all) - multiset(Keep(all, keep));
    forall e
      ensures dp[e] <= da[e] && multiset(Keep(part, keep))[e] <= multiset(part)[e] &&
        multiset(Keep(all, keep))[e] <= multiset(all)[e]
    {
      KeepCounts(part, keep, e);
      KeepCounts(all, keep, e);
    }
    assert dp <= da;
    assert multiset(part) == multiset(Keep(part, keep)) + dp;
    assert multiset(all) == multiset(Keep(all, keep)) + da;
    assert da == dp + (da - dp);
    assert |dp| <= |da|;
  }

  lemma KeptIsNearer(all: seq<Entry>, keep: seq<bool>, want: nat, hits: seq<Entry>, n: nat, e: Entry, o: Entry)
    requires Nearest(all, want, hits) && n <= |Keep(hits, keep)|
    requires multiset(Keep(all, keep))[e] > multiset(Keep(hits, keep)[..n])[e] && o in Keep(hits, keep)[..n]
    ensures o.dist <= e.dist
  {
    hide Keep, Nearest, Rising;
    var kept := Keep(hits, keep);
    NearestParts(all, want, hits);
    KeepRising(hits, keep);
    KeepCounts(hits, keep, e);
    KeepCounts(all, keep, e);
    if multiset(kept)[e] > multiset(kept[..n])[e] {
      TailIsFarther(kept, n, e, o);
    } else {
      assert kept == kept[..n] + kept[n..];
      assert o in kept;
      LeftOut(all, want, hits, e, o);
    }
  }

  /** The over-fetch margin: asking the index for K more than are dropped lands the K
      nearest of those that are kept. */
  lemma OverfetchSuffices(all: seq<Entry>, keep: seq<bool>, k: nat, want: nat, hits: seq<Entry>)
    requires Nearest(all, want, hits) && want >= Min(k + (|all| - |Keep(all, keep)|), |all|)
    ensures var kept := Keep(hits, keep); Nearest(Keep(all, keep), k, kept[..Min(k, |kept|)])
  {
    hide Keep, Nearest, Rising;
    var kept, pool := Keep(hits, keep), Keep(all, keep);
    var out := kept[..Min(k, |kept|)];
    NearestParts(all, want, hits);
    KeepRising(hits, keep);
    DroppedMonotone(hits, all, keep);
    EnoughKept(all, keep, k, want, hits);
    PrefixOf(kept, |out|);
    forall e, o | multiset(pool)[e] > multiset(out)[e] && o in out ensures o.dist <= e.dist {
      KeptIsNearer(all, keep, want, hits, |out|, e, o);
    }
    assert NoneNearer(pool, out);
    IsNearest(pool, k, out);
  }

  lemma NearestParts(all: seq<Entry>, k: nat, out: seq<Entry>)
    requires Nearest(all, k, out)
    ensures |out| == Min(k, |all|) && Rising(out) && multiset(out) <= multiset(all)
  {
  }

  lemma IsNearest(all: seq<Entry>, k: nat, out: seq<Entry>)
    requires |out| == Min(k, |all|) && Rising(out) && multiset(out) <= multiset(all)
    requires NoneNearer(all, out)
    ensures Nearest(all, k, out)
  {
  }

  lemma PrefixOf(es: seq<Entry>, n: nat)
    requires n <= |es|
    ensures multiset(es[..n]) <= multiset(es) && (Rising(es) ==> Rising(es[..n]))
  {
    assert es == es[..n] + es[n..];
    assert multiset(es) == multiset(es[..n]) + multiset(es[n..]);
  }

  lemma LeftOut(all: seq<Entry>, k: nat, out: seq<Entry>, e: Entry, o: Entry)
    requires Nearest(all, k, out) && multiset(all)[e] > multiset(out)[e] && o in out
    ensures o.dist <= e.dist
  {
  }

  lemma TailIsFarther(es: seq<Entry>, n: nat, e: Entry, o: Entry)
    requires Rising(es) && n <= |es| && multiset(es)[e] > multiset(es[..n])[e] && o in es[..n]
    ensures o.dist <= e.dist
  {
    assert es == es[..n] + es[n..];
    assert multiset(es) == multiset(es[..n]) + multiset(es[n..]);
    assert e in multiset(es[n..]);
    var j :| n <= j < |es| && es[j] == e;
    var i :| 0 <= i < n && es[i] == o;
  }

  lemma SameKept(a: seq<Entry>, b: seq<Entry>, keep: seq<bool>)
    requires multiset(a) == multiset(b)
    ensures |Keep(a, keep)| == |Keep(b, keep)|
  {
    hide Keep;
    DroppedMonotone(a, b, keep);
    DroppedMonotone(b, a, keep);
    SubSize(Keep(a, keep), Keep(b, keep));
    SubSize(Keep(b, keep), Keep(a, keep));
  }

  lemma EnoughKept(all: seq<Entry>, keep: seq<bool>, k: nat, want: nat, hits: seq<Entry>)
    requires Nearest(all, want, hits) && want >= Min(k + (|all| - |Keep(all, keep)|), |all|)
    ensures Min(k, |Keep(hits, keep)|) == Min(k, |Keep(all, keep)|)
  {
    hide Keep, Rising, Nearest;
    NearestParts(all, want, hits);
    DroppedMonotone(hits, all, keep);
    SubSize(Keep(hits, keep), Keep(all, keep));
    if want >= |all| {
      WholeHits(all, want, hits);
      SameKept(all, hits, keep);
    }
  }

  lemma SubSize(a: seq<Entry>, b: seq<Entry>)
    requires multiset(a) <= multiset(b)
    ensures |a| <= |b|
  {
    var d := multiset(b) - multiset(a);
    assert multiset(b) == multiset(a) + d;
    assert |a| == |multiset(a)| && |b| == |multiset(b)|;
  }

  // A search that may return everything does.
  lemma WholeHits(all: seq<Entry>, want: nat, hits: seq<Entry>)
    requires Nearest(all, want, hits)
    ensures want >= |all| ==> multiset(hits) == multiset(all)
  {
    if want >= |all| {
      var d := multiset(all) - multiset(hits);
      assert multiset(all) == multiset(hits) + d;
      assert |hits| == |multiset(hits)| && |all| == |multiset(all)|;
      assert |d| == 0;
    }
  }
}
