/** Sequences of rows and their concatenation: the shape of one level of a tree. */
module Sequences {
  import opened Basics

  // s with the k elements at i replaced by t.
  function Cut<T>(s: seq<T>, i: nat, k: nat, t: seq<T>): seq<T>
    requires i + k <= |s|
  {
    s[..i] + t + s[i + k..]
  }

  // The first n rows, one after the other.
  function Prefix<T>(rows: seq<seq<T>>, n: nat): seq<T>
    requires n <= |rows|
  {
    if n == 0 then [] else Prefix(rows, n - 1) + rows[n - 1]
  }

  function Flatten<T>(rows: seq<seq<T>>): seq<T> {
    Prefix(rows, |rows|)
  }

  // Where row p begins in the concatenation.
  function Offset<T>(rows: seq<seq<T>>, p: nat): nat
    requires p <= |rows|
  {
    |Prefix(rows, p)|
  }

  lemma {:induction false} PrefixSame<T>(a: seq<seq<T>>, b: seq<seq<T>>, n: nat)
    requires n <= |a| && n <= |b| && forall i :: 0 <= i < n ==> a[i] == b[i]
    ensures Prefix(a, n) == Prefix(b, n)
  {
    if n > 0 { PrefixSame(a, b, n - 1); }
  }

  lemma {:induction false} PrefixConcat<T>(a: seq<seq<T>>, b: seq<seq<T>>, n: nat)
    requires n <= |b|
    ensures Prefix(a + b, |a| + n) == Flatten(a) + Prefix(b, n)
  {
    if n == 0 {
      PrefixSame(a + b, a, |a|);
    } else {
      PrefixConcat(a, b, n - 1);
      assert (a + b)[|a| + n - 1] == b[n - 1];
    }
  }

  lemma FlattenConcat<T>(a: seq<seq<T>>, b: seq<seq<T>>)
    ensures Flatten(a + b) == Flatten(a) + Flatten(b)
  {
    PrefixConcat(a, b, |b|);
  }

  lemma FlattenOne<T>(row: seq<T>)
    ensures Flatten([row]) == row
  {
    assert Prefix([row], 1) == Prefix([row], 0) + row;
  }

  lemma FlattenTwo<T>(a: seq<T>, b: seq<T>)
    ensures Flatten([a, b]) == a + b
  {
    assert Prefix([a, b], 1) == Prefix([a, b], 0) + a;
    assert Prefix([a, b], 2) == Prefix([a, b], 1) + b;
  }

  // The concatenation around a run of rows.
  lemma FlattenAround<T>(rows: seq<seq<T>>, p: nat, k: nat)
    requires p + k <= |rows|
    ensures Flatten(rows) == Flatten(rows[..p]) + Flatten(rows[p..p + k]) + Flatten(rows[p + k..])
  {
    assert rows == rows[..p] + rows[p..p + k] + rows[p + k..];
    FlattenConcat(rows[..p] + rows[p..p + k], rows[p + k..]);
    FlattenConcat(rows[..p], rows[p..p + k]);
  }

  // The rows after p.
  function Suffix<T>(rows: seq<seq<T>>, p: nat): seq<T>
    requires p <= |rows|
  {
    Flatten(rows[p..])
  }

  lemma FlattenAt<T>(rows: seq<seq<T>>, p: nat)
    requires p < |rows|
    ensures Flatten(rows) == Prefix(rows, p) + rows[p] + Suffix(rows, p + 1)
  {
    FlattenAround(rows, p, 1);
    assert rows[p..p + 1] == [rows[p]];
    FlattenOne(rows[p]);
    PrefixSame(rows, rows[..p], p);
  }

  lemma FlattenIndex<T>(rows: seq<seq<T>>, p: nat, i: nat)
    requires p < |rows| && i < |rows[p]|
    ensures Offset(rows, p) + i < |Flatten(rows)| && Flatten(rows)[Offset(rows, p) + i] == rows[p][i]
  {
    FlattenAt(rows, p);
  }

  lemma {:induction false} LocateIn<T>(rows: seq<seq<T>>, n: nat, k: nat) returns (p: nat, i: nat)
    requires n <= |rows| && k < |Prefix(rows, n)|
    ensures p < n && i < |rows[p]| && Offset(rows, p) + i == k
  {
    if k >= |Prefix(rows, n - 1)| {
      p, i := n - 1, k - |Prefix(rows, n - 1)|;
    } else {
      p, i := LocateIn(rows, n - 1, k);
    }
  }

  // Every position of the concatenation lies in some row.
  lemma Locate<T>(rows: seq<seq<T>>, k: nat) returns (p: nat, i: nat)
    requires k < |Flatten(rows)|
    ensures p < |rows| && i < |rows[p]| && Offset(rows, p) + i == k
  {
    p, i := LocateIn(rows, |rows|, k);
  }

  lemma CutInside<T>(x: seq<T>, r: seq<T>, y: seq<T>, i: nat, k: nat, t: seq<T>)
    requires i + k <= |r|
    ensures x + Cut(r, i, k, t) + y == Cut(x + r + y, |x| + i, k, t)
  {
    var s := x + r + y;
    assert s[..|x| + i] == x + r[..i];
    assert s[|x| + i + k..] == r[i + k..] + y;
  }

  // Replacing a slice of one row replaces the same slice of the concatenation.
  lemma FlattenCut<T>(rows: seq<seq<T>>, p: nat, i: nat, k: nat, t: seq<T>)
    requires p < |rows| && i + k <= |rows[p]|
    ensures Offset(rows, p) + i + k <= |Flatten(rows)|
    ensures Flatten(rows[p := Cut(rows[p], i, k, t)]) == Cut(Flatten(rows), Offset(rows, p) + i, k, t)
  {
    var rows' := rows[p := Cut(rows[p], i, k, t)];
    FlattenAt(rows, p);
    FlattenAt(rows', p);
    PrefixSame(rows, rows', p);
    assert rows'[p + 1..] == rows[p + 1..];
    CutInside(Prefix(rows, p), rows[p], Suffix(rows, p + 1), i, k, t);
  }

  lemma FlattenErase<T>(rows: seq<seq<T>>, p: nat, i: nat)
    requires p < |rows| && i < |rows[p]|
    ensures var k := Offset(rows, p) + i;
      && k < |Flatten(rows)| && Flatten(rows)[k] == rows[p][i]
      && Flatten(rows[p := Cut(rows[p], i, 1, [])]) == RemoveAt(Flatten(rows), k)
  {
    FlattenIndex(rows, p, i);
    FlattenCut(rows, p, i, 1, []);
  }

  lemma FlattenInsert<T>(rows: seq<seq<T>>, p: nat, i: nat, x: T)
    requires p < |rows| && i <= |rows[p]|
    ensures var k := Offset(rows, p) + i;
      k <= |Flatten(rows)| && Flatten(rows[p := Cut(rows[p], i, 0, [x])]) == InsertAt(Flatten(rows), k, x)
  {
    FlattenCut(rows, p, i, 0, [x]);
  }

  // Regrouping adjacent rows leaves the concatenation as it is.
  lemma FlattenRegroup<T>(rows: seq<seq<T>>, p: nat, k: nat, rs: seq<seq<T>>)
    requires p + k <= |rows| && Flatten(rs) == Flatten(rows[p..p + k])
    ensures Flatten(Cut(rows, p, k, rs)) == Flatten(rows)
  {
    FlattenAround(rows, p, k);
    FlattenConcat(rows[..p] + rs, rows[p + k..]);
    FlattenConcat(rows[..p], rs);
  }
}
