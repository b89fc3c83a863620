/** What a B+-tree stands for: a list of pairs sorted by key, where a pair goes in front of
    its equals and the first copy of a pair is the one to go. */
module SortedPairs {
  import opened Basics
  import opened TreeKeys

  type Pair = (Key, InternalId)

  ghost predicate InOrder(es: seq<Pair>) {
    forall i, j :: 0 <= i < j < |es| ==> es[i].0 <= es[j].0
  }

  // How many pairs at the front have a smaller key.
  function Below(es: seq<Pair>, key: Key): (k: nat)
    ensures k <= |es|
    ensures forall i :: 0 <= i < k ==> es[i].0 < key
    ensures k < |es| ==> key <= es[k].0
  {
    if es == [] || key <= es[0].0 then 0 else 1 + Below(es[1..], key)
  }

  function Added(es: seq<Pair>, key: Key, id: InternalId): seq<Pair> {
    InsertAt(es, Below(es, key), (key, id))
  }

  function Dropped(es: seq<Pair>, e: Pair): seq<Pair> {
    if e in es then RemoveAt(es, IndexOf(es, e)) else es
  }

  function Select(es: seq<Pair>, lo: Key, hi: Key): seq<Pair> {
    if es == [] then []
    else Select(es[..|es| - 1], lo, hi)
         + (if lo <= es[|es| - 1].0 <= hi then [es[|es| - 1]] else [])
  }

  // ----- adding and dropping -----

  lemma AddedMultiset(es: seq<Pair>, key: Key, id: InternalId)
    ensures multiset(Added(es, key, id)) == multiset(es) + multiset{(key, id)}
  {
    var k := Below(es, key);
    assert es == es[..k] + es[k..];
  }

  lemma AddedInOrder(es: seq<Pair>, key: Key, id: InternalId)
    requires InOrder(es)
    ensures InOrder(Added(es, key, id))
  {
    var k := Below(es, key);
    var r := Added(es, key, id);
    forall i, j | 0 <= i < j < |r| ensures r[i].0 <= r[j].0 {
      assert j > k ==> r[j] == es[j - 1] && es[k].0 <= es[j - 1].0;
      assert i > k ==> r[i] == es[i - 1];
    }
  }

  lemma DroppedMultiset(es: seq<Pair>, e: Pair)
    ensures multiset(Dropped(es, e)) == multiset(es) - multiset{e}
  {
    if e in es {
      var k := IndexOf(es, e);
      assert es == es[..k] + [e] + es[k + 1..];
    }
  }

  lemma DroppedInOrder(es: seq<Pair>, e: Pair)
    requires InOrder(es)
    ensures InOrder(Dropped(es, e))
  {
    var r := Dropped(es, e);
    if e in es {
      var k := IndexOf(es, e);
      forall i, j | 0 <= i < j < |r| ensures r[i].0 <= r[j].0 {
        assert r[i] == es[if i < k then i else i + 1] && r[j] == es[if j < k then j else j + 1];
      }
    }
  }

  // Removing what was just inserted restores the list, not only the multiset.
  lemma DropUndoesAdd(es: seq<Pair>, key: Key, id: InternalId)
    ensures Dropped(Added(es, key, id), (key, id)) == es
  {
    var k, r := Below(es, key), Added(es, key, id);
    assert r[k] == (key, id);
    forall i | 0 <= i < k ensures r[i] != (key, id) {}
    assert IndexOf(r, (key, id)) == k;
  }

  // ----- what a scan selects -----

  lemma {:induction false} SelectConcat(a: seq<Pair>, b: seq<Pair>, lo: Key, hi: Key)
    ensures Select(a + b, lo, hi) == Select(a, lo, hi) + Select(b, lo, hi)
  {
    if b == [] {
      assert a + b == a;
    } else {
      assert (a + b)[..|a + b| - 1] == a + b[..|b| - 1];
      SelectConcat(a, b[..|b| - 1], lo, hi);
    }
  }

  lemma {:induction false} SelectNone(es: seq<Pair>, lo: Key, hi: Key)
    requires forall i :: 0 <= i < |es| ==> !(lo <= es[i].0 <= hi)
    ensures Select(es, lo, hi) == []
  {
    if es != [] { SelectNone(es[..|es| - 1], lo, hi); }
  }

  // Select keeps exactly the matching pairs, with their multiplicity.
  lemma {:induction false} SelectIsFilter(es: seq<Pair>, lo: Key, hi: Key, x: Pair)
    ensures multiset(Select(es, lo, hi))[x] == (if lo <= x.0 <= hi then multiset(es)[x] else 0)
  {
    if es != [] {
      var rest, last := es[..|es| - 1], es[|es| - 1];
      SelectIsFilter(rest, lo, hi, x);
      assert es == rest + [last];
      assert Select(es, lo, hi) == Select(rest, lo, hi) + (if lo <= last.0 <= hi then [last] else []);
    }
  }

  lemma {:induction false} SelectMembers(es: seq<Pair>, lo: Key, hi: Key)
    ensures forall i :: 0 <= i < |Select(es, lo, hi)| ==> Select(es, lo, hi)[i] in es
  {
    if es != [] {
      SelectMembers(es[..|es| - 1], lo, hi);
      assert es == es[..|es| - 1] + [es[|es| - 1]];
    }
  }

  lemma {:induction false} SelectInOrder(es: seq<Pair>, lo: Key, hi: Key)
    requires InOrder(es)
    ensures InOrder(Select(es, lo, hi))
  {
    if es != [] {
      var rest := es[..|es| - 1];
      SelectInOrder(rest, lo, hi);
      SelectMembers(rest, lo, hi);
      forall i | 0 <= i < |Select(rest, lo, hi)| ensures Select(rest, lo, hi)[i].0 <= es[|es| - 1].0 {
        assert Select(rest, lo, hi)[i] in rest;
      }
      assert Select(es, lo, hi) == Select(rest, lo, hi)
        + (if lo <= es[|es| - 1].0 <= hi then [es[|es| - 1]] else []);
    }
  }

  // ----- histories -----

  datatype Op = Add(key: Key, id: InternalId) | Drop(key: Key, id: InternalId)

  // The list, and the multiset, after a sequence of inserts and removes on an empty tree.
  function Replay(ops: seq<Op>): seq<Pair> {
    if ops == [] then []
    else
      var es, op := Replay(ops[..|ops| - 1]), ops[|ops| - 1];
      if op.Add? then Added(es, op.key, op.id) else Dropped(es, (op.key, op.id))
  }

  function Held(ops: seq<Op>): multiset<Pair> {
    if ops == [] then multiset{}
    else
      var m, op := Held(ops[..|ops| - 1]), ops[|ops| - 1];
      if op.Add? then m + multiset{(op.key, op.id)} else m - multiset{(op.key, op.id)}
  }

  // Every history refines a multiset of pairs, and a scan of the list gives exactly the
  // matching pairs of the multiset, each as often as it is held, in key order.
  lemma {:induction false} HistoryRefinesMultiset(ops: seq<Op>)
    ensures InOrder(Replay(ops)) && multiset(Replay(ops)) == Held(ops)
  {
    if ops != [] {
      HistoryRefinesMultiset(ops[..|ops| - 1]);
      var es, op := Replay(ops[..|ops| - 1]), ops[|ops| - 1];
      if op.Add? {
        AddedInOrder(es, op.key, op.id);
        AddedMultiset(es, op.key, op.id);
      } else {
        DroppedInOrder(es, (op.key, op.id));
        DroppedMultiset(es, (op.key, op.id));
      }
    }
  }

  lemma ScanOfHistory(ops: seq<Op>, lo: Key, hi: Key)
    ensures InOrder(Select(Replay(ops), lo, hi))
    ensures forall x: Pair :: multiset(Select(Replay(ops), lo, hi))[x] == (if lo <= x.0 <= hi then Held(ops)[x] else 0)
  {
    HistoryRefinesMultiset(ops);
    SelectInOrder(Replay(ops), lo, hi);
    forall x: Pair
      ensures multiset(Select(Replay(ops), lo, hi))[x] == (if lo <= x.0 <= hi then Held(ops)[x] else 0)
    {
      SelectIsFilter(Replay(ops), lo, hi, x);
    }
  }
}
