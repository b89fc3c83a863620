/** Searching the database among the rows that a predicate asks for, over an exact index. */
module VectorDbSearch {
  import opened Basics
  import opened MetaColumn
  import opened MetaRows
  import opened MetaResolve
  import opened MetaTable
  import opened MetadataStores
  import opened VectorDbs
  import opened TopK
  import opened FilteredSearch

  // The live rows that hold what the predicate asks for.
  function Matches(c: Column, live: seq<bool>, p: MetaTable.Predicate): (m: seq<bool>)
    requires Sized(c, |live|) && |c.present| == |live|
    ensures |m| == |live| && forall i :: 0 <= i < |m| ==> m[i] == (live[i] && Holds(c, p, i))
  {
    seq(|live|, i requires 0 <= i < |live| => live[i] && Holds(c, p, i))
  }

  lemma {:induction false} TombstonesCounted(live: seq<bool>)
    ensures CountDeleted(Flags(live)) == |live| - |LiveIds(live)|
  {
    if live != [] {
      TombstonesCounted(live[..|live| - 1]);
      assert Flags(live)[..|live| - 1] == Flags(live[..|live| - 1]);
    }
  }

  lemma AnswersAreExact(c: Column, live: seq<bool>, p: MetaTable.Predicate, ids: seq<nat>)
    requires Sized(c, |live|) && |c.present| == |live| && Answers(c, live, p, ids)
    ensures ExactList(ids, Flags(live)) && Kept(Flags(live), Some(ids)) == Matches(c, live, p)
  {
    hide Holds;
    assert forall i :: 0 <= i < |ids| ==> ids[i] in ids;
  }

  datatype Found = Mistyped | NotResolved | Hits(hits: seq<Entry>)

  /** A filtered search, as `search`, `search_prefiltered` or `search_auto` runs it: by
      dropping non-matches, by scanning the matches, or as the planner says. d is the
      distance of each row to the query. Unless an equality asks for a value that `set_row`
      overwrote, the hits are the K nearest live rows that match. */
  method SearchWhere(db: VDB, d: seq<Dist>, k: nat, p: MetaTable.Predicate, pre: bool) returns (r: Found)
    requires db.Valid() && k > 0 && |d| == |db.vectors| && p.attr < |db.schema|
    ensures p.attr < |db.meta.columns| && p.attr < |db.meta.trails|
    ensures var c := db.meta.columns[p.attr];
      && Sized(c, |db.meta.live|) && |c.present| == |db.meta.live|
      && (r.Mistyped? <==> !Suits(c, p))
      && (r.NotResolved? <==> Suits(c, p) && p.Range? && !db.schema[p.attr].indexed)
      && (r.Hits? && Untouched(c, db.meta.live, db.meta.trails[p.attr], p) ==>
            Nearest(Matching(d, Matches(c, db.meta.live, p)), k, r.hits))
  {
    hide Nearest, Matching, Untouched, Answers, TableOK, AllPending, Held, Bounded, LiveIds, ColumnOK, Holds, Suits,
      Records;
    ghost var c := db.meta.columns[p.attr];
    assert FieldOK(db.schema[p.attr], c, db.meta.live, db.meta.trails[p.attr]);
    ColumnFacts(c, db.meta.live, db.meta.trails[p.attr]);
    TombstonesCounted(db.meta.live);
    TableRows(db.pending, db.extToInt, db.intToExt, db.deleted);
    var resolved := db.meta.Resolve(p, db.deleted);
    if resolved.Mismatch? { return Mistyped; }
    if resolved.Unresolved? { return NotResolved; }
    var allow := resolved.ids;
    if Untouched(c, db.meta.live, db.meta.trails[p.attr], p) {
      AnswersAreExact(c, db.meta.live, p, allow);
    }
    var hits := Auto(d, k, db.deleted, db.deletedCount, allow, pre);
    r := Hits(hits);
  }
}
