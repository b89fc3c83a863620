/** Logs with increasing lsns: their heads and tails, their replay, and what one operation
    does to one row. */
module DurableLog {
  import opened Basics
  import opened WalRecords
  import opened DurableThreads

  ghost predicate Increasing(recs: seq<Rec>) {
    forall i, j :: 0 <= i < j < |recs| ==> recs[i].lsn < recs[j].lsn
  }

  ghost predicate Below(recs: seq<Rec>, l: nat) {
    forall i :: 0 <= i < |recs| ==> recs[i].lsn < l
  }

  // In a log with increasing lsns the head is a prefix and the tail the rest of it.
  lemma {:induction false} HeadTail(recs: seq<Rec>, l: nat)
    requires Increasing(recs)
    ensures |Head(recs, l)| <= |recs|
    ensures Head(recs, l) == recs[..|Head(recs, l)|] && Tail(recs, l) == recs[|Head(recs, l)|..]
    ensures forall i :: 0 <= i < |recs| ==> (recs[i].lsn <= l <==> i < |Head(recs, l)|)
  {
    hide Head, Tail;
    if recs == [] {
      NoHeadTail(l);
    } else {
      var rest, last := recs[..|recs| - 1], recs[|recs| - 1];
      HeadTail(rest, l);
      HeadTailLast(recs, l);
      var h := |Head(rest, l)|;
      assert h < |rest| ==> rest[h].lsn < last.lsn;
    }
  }

  lemma NoHeadTail(l: nat)
    ensures Head([], l) == [] && Tail([], l) == []
  {
  }

  lemma HeadTailLast(recs: seq<Rec>, l: nat)
    requires recs != []
    ensures var rest, last := recs[..|recs| - 1], recs[|recs| - 1];
      && recs == rest + [last]
      && Head(recs, l) == (if last.lsn > l then Head(rest, l) else Head(rest, l) + [last])
      && Tail(recs, l) == (if last.lsn > l then Tail(rest, l) + [last] else Tail(rest, l))
  {
  }

  lemma HeadAll(recs: seq<Rec>, l: nat)
    requires Increasing(recs) && Below(recs, l + 1)
    ensures Head(recs, l) == recs && Tail(recs, l) == []
  {
    HeadTail(recs, l);
    if recs != [] { assert recs[|recs| - 1].lsn < l + 1; }
  }

  lemma HeadSnoc(recs: seq<Rec>, r: Rec, l: nat)
    ensures Head(recs + [r], l) == Head(recs, l) + (if r.lsn > l then [] else [r])
    ensures Tail(recs + [r], l) == Tail(recs, l) + (if r.lsn > l then [r] else [])
  {
    assert (recs + [r])[..|recs|] == recs;
  }

  lemma {:induction false} TailConcat(a: seq<Rec>, b: seq<Rec>, l: nat)
    ensures Tail(a + b, l) == Tail(a, l) + Tail(b, l)
  {
    if b == [] {
      assert a + b == a;
    } else {
      var rest, last := b[..|b| - 1], b[|b| - 1];
      TailConcat(a, rest, l);
      assert a + b == (a + rest) + [last];
      HeadSnoc(a + rest, last, l);
      assert b == rest + [last];
      HeadSnoc(rest, last, l);
    }
  }

  lemma {:induction false} HeadConcat(a: seq<Rec>, b: seq<Rec>, l: nat)
    ensures Head(a + b, l) == Head(a, l) + Head(b, l)
  {
    if b == [] {
      assert a + b == a;
    } else {
      var rest, last := b[..|b| - 1], b[|b| - 1];
      HeadConcat(a, rest, l);
      assert a + b == (a + rest) + [last];
      HeadSnoc(a + rest, last, l);
      assert b == rest + [last];
      HeadSnoc(rest, last, l);
    }
  }

  lemma {:induction false} TailNone(recs: seq<Rec>, l: nat)
    requires Below(recs, l + 1)
    ensures Tail(recs, l) == []
  {
    if recs != [] {
      assert recs[|recs| - 1].lsn < l + 1;
      TailNone(recs[..|recs| - 1], l);
    }
  }

  lemma {:induction false} HeadNone(recs: seq<Rec>, l: nat)
    requires forall i :: 0 <= i < |recs| ==> recs[i].lsn > l
    ensures Head(recs, l) == [] && Tail(recs, l) == recs
  {
    if recs != [] {
      var rest, last := recs[..|recs| - 1], recs[|recs| - 1];
      HeadNone(rest, l);
      assert recs == rest + [last];
      HeadSnoc(rest, last, l);
    }
  }

  // Reclaiming from the front what a snapshot covers leaves the tail as it is.
  lemma TailTruncated(wal: seq<Rec>, upto: nat, cut: nat)
    ensures Tail(Truncated(wal, upto, cut), upto) == Tail(wal, upto)
    ensures Increasing(wal) ==> Increasing(Truncated(wal, upto, cut))
    ensures forall i :: 0 <= i < |Truncated(wal, upto, cut)| ==> Truncated(wal, upto, cut)[i] in wal
  {
    if cut <= |wal| && forall i :: 0 <= i < cut ==> wal[i].lsn <= upto {
      assert wal == wal[..cut] + wal[cut..];
      TailConcat(wal[..cut], wal[cut..], upto);
      TailNone(wal[..cut], upto);
    }
  }

  lemma {:induction false} MaxLsnBounds(recs: seq<Rec>)
    ensures forall i :: 0 <= i < |recs| ==> recs[i].lsn <= MaxLsn(recs)
    ensures recs != [] ==> exists i :: 0 <= i < |recs| && recs[i].lsn == MaxLsn(recs)
  {
    if recs != [] {
      var rest, last := recs[..|recs| - 1], recs[|recs| - 1];
      MaxLsnBounds(rest);
      assert recs == rest + [last];
      if MaxLsn(rest) > last.lsn {
        var i :| 0 <= i < |rest| && rest[i].lsn == MaxLsn(rest);
        assert recs[i].lsn == MaxLsn(recs);
      } else {
        assert recs[|recs| - 1].lsn == MaxLsn(recs);
      }
    }
  }

  // The database after exactly these operations.
  function Effect(recs: seq<Rec>): Rows { Replay(map[], recs) }

  lemma {:induction false} ReplayConcat(rows: Rows, a: seq<Rec>, b: seq<Rec>)
    ensures Replay(rows, a + b) == Replay(Replay(rows, a), b)
  {
    if b == [] {
      assert a + b == a;
    } else {
      ReplayConcat(rows, a, b[..|b| - 1]);
      assert (a + b)[..|a + b| - 1] == a + b[..|b| - 1];
    }
  }

  lemma EffectSnoc(a: seq<Rec>, r: Rec)
    ensures Effect(a + [r]) == Apply(Effect(a), r)
  {
    assert (a + [r])[..|a|] == a;
  }

  // ----- ids -----

  // Ids that were put, and those in use, are behind the next one.
  ghost predicate IdsBelow(recs: seq<Rec>, n: nat) {
    forall i :: 0 <= i < |recs| && recs[i].act.Put? ==> recs[i].id < n
  }

  ghost predicate RowsBelow(rows: Rows, n: nat) {
    forall id :: id in rows ==> id < n
  }

  lemma {:induction false} NextIdAhead(next: nat, recs: seq<Rec>)
    ensures next <= NextId(next, recs) && IdsBelow(recs, NextId(next, recs))
  {
    if recs != [] {
      NextIdAhead(next, recs[..|recs| - 1]);
      assert recs == recs[..|recs| - 1] + [recs[|recs| - 1]];
    }
  }

  // What a tail keeps was there.
  lemma {:induction false} TailMembers(recs: seq<Rec>, l: nat)
    ensures forall r :: r in Tail(recs, l) ==> r in recs && r.lsn > l
  {
    if recs != [] { TailMembers(recs[..|recs| - 1], l); }
  }

  // Replaying only touches rows below the next id, when the rows replayed on are.
  lemma {:induction false} ReplayBelow(rows: Rows, next: nat, recs: seq<Rec>)
    requires RowsBelow(rows, next)
    ensures RowsBelow(Replay(rows, recs), NextId(next, recs))
  {
    if recs != [] { ReplayBelow(rows, next, recs[..|recs| - 1]); }
  }

  // ----- one row -----

  function Lookup(rows: Rows, id: nat): Option<Row> {
    if id in rows then Some(rows[id]) else None
  }

  function RowAfter(row: Option<Row>, act: Act): Option<Row> {
    match act
    case Put(vec, meta) => Some(Row(vec, meta))
    case Replace(vec, meta) => if row.Some? then Some(Row(vec, meta)) else None
    case Relabel(meta) => if row.Some? then Some(row.value.(meta := meta)) else None
    case Drop => None
    case Mark => row
  }

  // An operation changes its own row only; so operations on different ids commute.
  lemma ApplyAt(rows: Rows, r: Rec, id: nat)
    ensures Lookup(Apply(rows, r), id) ==
      (if id == r.id then RowAfter(Lookup(rows, id), r.act) else Lookup(rows, id))
  {
  }

  lemma ApplyCommutes(rows: Rows, a: Rec, b: Rec)
    requires a.id != b.id
    ensures Apply(Apply(rows, a), b) == Apply(Apply(rows, b), a)
  {
    var x, y := Apply(Apply(rows, a), b), Apply(Apply(rows, b), a);
    forall id ensures Lookup(x, id) == Lookup(y, id) {
      ApplyAt(Apply(rows, a), b, id);
      ApplyAt(rows, a, id);
      ApplyAt(Apply(rows, b), a, id);
      ApplyAt(rows, b, id);
    }
    RowsEqual(x, y);
  }

  // Operations on pairwise different ids.
  ghost predicate Apart(recs: seq<Rec>) {
    forall i, j :: 0 <= i < j < |recs| ==> recs[i].id != recs[j].id
  }

  lemma ReplayOne(rows: Rows, recs: seq<Rec>, r: Rec)
    ensures Replay(rows, recs + [r]) == Apply(Replay(rows, recs), r)
  {
    assert (recs + [r])[..|recs|] == recs;
  }

  // An operation may as well come after others that are about other ids.
  lemma {:induction false} MoveToEnd(rows: Rows, a: seq<Rec>, r: Rec, b: seq<Rec>)
    requires forall i :: 0 <= i < |b| ==> b[i].id != r.id
    ensures Replay(rows, a + [r] + b) == Replay(rows, a + b + [r])
    decreases |b|
  {
    hide Replay, Apply;
    if b == [] {
      assert a + [r] + b == a + b + [r];
    } else {
      var b', x := b[..|b| - 1], b[|b| - 1];
      MoveToEnd(rows, a, r, b');
      assert a + [r] + b == (a + [r] + b') + [x] && a + b == (a + b') + [x];
      ReplayOne(rows, a + [r] + b', x);
      ReplayOne(rows, a + b', r);
      ReplayOne(rows, a + b', x);
      ReplayOne(rows, a + b, r);
      ApplyCommutes(Replay(rows, a + b'), r, x);
    }
  }

  /** Operations on different ids have the same effect in whatever order they are applied:
      what lets writers apply after their commit without keeping the order of the log. */
  lemma {:induction false} AnyOrderReplays(rows: Rows, logged: seq<Rec>, applied: seq<Rec>)
    requires multiset(logged) == multiset(applied) && Apart(logged)
    ensures Replay(rows, logged) == Replay(rows, applied)
    decreases |logged|
  {
    hide Replay;
    if logged == [] {
      assert |multiset(applied)| == |applied|;
      assert applied == logged;
    } else {
      var rest, r := logged[..|logged| - 1], logged[|logged| - 1];
      assert logged == rest + [r];
      assert r in multiset(applied);
      var j :| 0 <= j < |applied| && applied[j] == r;
      var a, b := applied[..j], applied[j + 1..];
      OthersRemain(rest, r, a, b, applied);
      forall i | 0 <= i < |b| ensures b[i].id != r.id { OtherId(rest, r, a + b, |a| + i); }
      MoveToEnd(rows, a, r, b);
      AnyOrderReplays(rows, rest, a + b);
      ReplayOne(rows, rest, r);
      ReplayOne(rows, a + b, r);
    }
  }

  lemma OthersRemain(rest: seq<Rec>, r: Rec, a: seq<Rec>, b: seq<Rec>, applied: seq<Rec>)
    requires multiset(rest + [r]) == multiset(applied) && |a| < |applied| && a == applied[..|a|]
    requires b == applied[|a| + 1..] && applied[|a|] == r
    ensures applied == a + [r] + b && multiset(rest) == multiset(a + b)
  {
    assert applied == a + [r] + b;
    var others := a + b;
    forall x ensures multiset(rest)[x] == multiset(others)[x] {
      assert multiset(rest + [r])[x] == multiset(rest)[x] + multiset{r}[x];
      assert multiset(applied)[x] == multiset(others)[x] + multiset{r}[x];
    }
  }

  lemma OtherId(rest: seq<Rec>, r: Rec, others: seq<Rec>, i: nat)
    requires Apart(rest + [r]) && multiset(rest) == multiset(others) && i < |others|
    ensures others[i].id != r.id
  {
    assert others[i] in multiset(rest);
    var k :| 0 <= k < |rest| && rest[k] == others[i];
    assert (rest + [r])[k] == rest[k] && (rest + [r])[|rest|] == r;
  }

  lemma RowsEqual(x: Rows, y: Rows)
    requires forall id: nat :: Lookup(x, id) == Lookup(y, id)
    ensures x == y
  {
    forall id: nat ensures id in x <==> id in y { assert Lookup(x, id) == Lookup(y, id); }
    forall id: nat | id in x ensures x[id] == y[id] { assert Lookup(x, id) == Lookup(y, id); }
  }
}
