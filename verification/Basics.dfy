/** Vocabulary shared by every component: optional values and the sequence edits that
    the source makes with `std::vector::insert`, `erase` and `std::find`. */
module Basics {
  datatype Option<+T> = None | Some(value: T)

  function InsertAt<T>(s: seq<T>, i: nat, x: T): (r: seq<T>)
    requires i <= |s|
    ensures |r| == |s| + 1
    ensures forall j :: 0 <= j < i ==> r[j] == s[j]
    ensures r[i] == x
    ensures forall j :: i < j < |r| ==> r[j] == s[j - 1]
  {
    s[..i] + [x] + s[i..]
  }

  function RemoveAt<T>(s: seq<T>, i: nat): (r: seq<T>)
    requires i < |s|
    ensures |r| == |s| - 1
    ensures forall j :: 0 <= j < i ==> r[j] == s[j]
    ensures forall j :: i <= j < |r| ==> r[j] == s[j + 1]
  {
    s[..i] + s[i + 1..]
  }

  ghost predicate Distinct<T>(s: seq<T>) {
    forall i, j :: 0 <= i < j < |s| ==> s[i] != s[j]
  }

  lemma InsertKeepsMembers<T>(s: seq<T>, i: nat, x: T)
    requires i <= |s|
    ensures forall y :: y in InsertAt(s, i, x) <==> y == x || y in s
  {
    assert s == s[..i] + s[i..];
  }

  lemma InsertDistinct<T>(s: seq<T>, i: nat, x: T)
    requires i <= |s| && Distinct(s) && x !in s
    ensures Distinct(InsertAt(s, i, x))
  {
    var r := InsertAt(s, i, x);
    forall a, b | 0 <= a < b < |r| ensures r[a] != r[b] {
      if a != i && b != i {
        var a', b' := if a < i then a else a - 1, if b < i then b else b - 1;
        assert r[a] == s[a'] && r[b] == s[b'];
      }
    }
  }

  lemma Twice<T>(s: seq<T>, i: nat, j: nat)
    requires i < j < |s| && s[i] == s[j]
    ensures multiset(s)[s[i]] >= 2
  {
    assert s == s[..j] + [s[j]] + s[j + 1..];
    assert s[i] in s[..j];
    assert multiset(s) == multiset(s[..j]) + multiset{s[j]} + multiset(s[j + 1..]);
  }

  // ----- sizes of sets -----

  lemma {:induction false} SmallerSet<T>(a: set<T>, b: set<T>)
    requires a < b
    ensures |a| < |b|
  {
    var x :| x in b && x !in a;
    if a != {} {
      var y :| y in a;
      SmallerSet(a - {y}, b - {y});
    }
  }

  lemma SubsetSize<T>(a: set<T>, b: set<T>)
    requires a <= b
    ensures |a| <= |b|
  {
    if a != b { SmallerSet(a, b); }
  }

  // The numbers below n.
  ghost function Numbers(n: nat): set<nat> { if n == 0 then {} else Numbers(n - 1) + {n - 1} }

  lemma {:induction false} NumbersSize(n: nat)
    ensures |Numbers(n)| == n && forall x: nat :: x in Numbers(n) <==> x < n
  {
    if n > 0 { NumbersSize(n - 1); }
  }

  // `std::find` on a vector: the first position of x, or |s| when x is absent.
  function IndexOf<T(==)>(s: seq<T>, x: T): (i: nat)
    ensures i <= |s|
    ensures i < |s| ==> s[i] == x
    ensures forall j :: 0 <= j < i ==> s[j] != x
    ensures i < |s| <==> x in s
  {
    if s == [] then 0 else if s[0] == x then 0 else 1 + IndexOf(s[1..], x)
  }
}

/** Keys and searches used by both models of the B+-tree. */
module TreeKeys {
  import opened Basics

  const KEY_LIMIT: int := 0x1_0000_0000_0000_0000

  // The sortable 64-bit keys of the index; only their order matters.
  type Key = k: int | 0 <= k < KEY_LIMIT
  type InternalId = nat
  type NodeId = nat

  ghost predicate Sorted(keys: seq<Key>) {
    forall i, j :: 0 <= i <= j < |keys| ==> keys[i] <= keys[j]
  }

  function Middle(first: nat, last: nat): (mid: nat)
    requires first < last
    ensures first <= mid < last
  {
    first + (last - first) / 2
  }

  // `std::lower_bound`. The two neighbour facts hold even when `keys` is not sorted,
  // because the search only ever narrows between positions it has compared.
  function LowerBound(keys: seq<Key>, k: Key): (i: nat)
    ensures i <= |keys|
    ensures i > 0 ==> keys[i - 1] < k
    ensures i < |keys| ==> k <= keys[i]
  {
    LowerBoundIn(keys, k, 0, |keys|)
  }

  function LowerBoundIn(keys: seq<Key>, k: Key, first: nat, last: nat): (i: nat)
    requires first <= last <= |keys|
    requires first > 0 ==> keys[first - 1] < k
    requires last < |keys| ==> k <= keys[last]
    ensures first <= i <= last
    ensures i > 0 ==> keys[i - 1] < k
    ensures i < |keys| ==> k <= keys[i]
    decreases last - first
  {
    if first == last then first
    else
      var mid := Middle(first, last);
      if keys[mid] < k then LowerBoundIn(keys, k, mid + 1, last) else LowerBoundIn(keys, k, first, mid)
  }

  // `std::upper_bound`.
  function UpperBound(keys: seq<Key>, k: Key): (i: nat)
    ensures i <= |keys|
    ensures i > 0 ==> keys[i - 1] <= k
    ensures i < |keys| ==> k < keys[i]
  {
    UpperBoundIn(keys, k, 0, |keys|)
  }

  function UpperBoundIn(keys: seq<Key>, k: Key, first: nat, last: nat): (i: nat)
    requires first <= last <= |keys|
    requires first > 0 ==> keys[first - 1] <= k
    requires last < |keys| ==> k < keys[last]
    ensures first <= i <= last
    ensures i > 0 ==> keys[i - 1] <= k
    ensures i < |keys| ==> k < keys[i]
    decreases last - first
  {
    if first == last then first
    else
      var mid := Middle(first, last);
      if keys[mid] <= k then UpperBoundIn(keys, k, mid + 1, last) else UpperBoundIn(keys, k, first, mid)
  }

  lemma SortedInsert(keys: seq<Key>, k: Key)
    requires Sorted(keys)
    ensures Sorted(InsertAt(keys, LowerBound(keys, k), k))
  {
    var pos := LowerBound(keys, k);
    var r := InsertAt(keys, pos, k);
    forall i, j | 0 <= i <= j < |r| ensures r[i] <= r[j] {
      var i', j' := if i < pos then i else i - 1, if j < pos then j else j - 1;
      assert i != pos ==> r[i] == keys[i'];
      assert j != pos ==> r[j] == keys[j'];
      assert i < pos ==> keys[i] <= keys[pos - 1];
      assert j > pos ==> keys[pos] <= keys[j - 1];
    }
  }

  // The first position at or after `from` whose key exceeds `hi`: where a leaf scan stops.
  function ScanEnd(keys: seq<Key>, from: nat, hi: Key): (i: nat)
    requires from <= |keys|
    ensures from <= i <= |keys|
    ensures forall j :: from <= j < i ==> keys[j] <= hi
    ensures i < |keys| ==> hi < keys[i]
    decreases |keys| - from
  {
    if from == |keys| || keys[from] > hi then from else ScanEnd(keys, from + 1, hi)
  }
}
