/** The segmented log: append with rotation, sync, truncate, and replay after a crash. */
module WalSegments {
  import opened Basics
  import opened Sequences
  import opened WalRecords
  import opened WalCodec
  import opened WalScan

  // A segment and the content of its file.
  datatype Segment = Segment(number: nat, firstLsn: Long, lastLsn: Long, sealed: bool, file: Bytes)

  // ----- records and their file -----

  lemma LoggedFrame(r: WalRecord)
    requires Fits(r)
    ensures Fits(Logged(r)) && Frame(Logged(r)) == Frame(r) && Logged(Logged(r)) == Logged(r)
  {
  }

  ghost predicate Settled(rs: seq<WalRecord>) {
    forall i :: 0 <= i < |rs| ==> Fits(rs[i]) && Logged(rs[i]) == rs[i] && rs[i].lsn > 0
  }

  ghost predicate Ascending(rs: seq<WalRecord>) {
    forall i, j :: 0 <= i < j < |rs| ==> rs[i].lsn < rs[j].lsn
  }

  ghost predicate AtMost(rs: seq<WalRecord>, l: nat) {
    forall i :: 0 <= i < |rs| ==> rs[i].lsn <= l
  }

  function FileOf(h: Header, rs: seq<WalRecord>): Bytes
    requires forall i :: 0 <= i < |rs| ==> Fits(rs[i])
  {
    PutHeader(h) + Frames(rs)
  }

  // The metadata of a segment are the lsns of its first and last record, or zero.
  ghost predicate SegmentOK(h: Header, s: Segment, rs: seq<WalRecord>) {
    && Settled(rs) && s.file == FileOf(h, rs)
    && s.firstLsn == (if rs == [] then 0 else rs[0].lsn)
    && s.lastLsn == (if rs == [] then 0 else rs[|rs| - 1].lsn)
  }

  lemma AppendToFile(h: Header, rs: seq<WalRecord>, r: WalRecord)
    requires Settled(rs) && Fits(r) && Logged(r) == r && r.lsn > 0
    ensures Settled(rs + [r]) && FileOf(h, rs + [r]) == FileOf(h, rs) + Frame(r)
  {
    hide Frame, Fits, Logged, PutHeader;
    FramesConcat(rs, [r]);
    assert Frames([r]) == Frame(r) + Frames([]);
  }

  // ----- replay -----

  datatype Replayed = Corrupt | Replayed(recs: seq<WalRecord>, used: nat)

  // What one file says: its records and the bytes they end at. A file that does not begin
  // with a good header, or a sealed one that does not decode to its end, is an error. The
  // schema fingerprint in the header is not compared.
  function ReplayFile(h: Header, file: Bytes, active: bool): Replayed {
    var head := GetHeader(file);
    if head.None? || head.value.dim != h.dim || head.value.metric != h.metric then Corrupt
    else
      var s := Scan(file[HEADER_SIZE..]);
      if s.stop.Some? && !active then Corrupt else Replayed(s.recs, HEADER_SIZE + s.used)
  }

  lemma ReplayWhole(h: Header, rs: seq<WalRecord>, active: bool)
    requires Settled(rs)
    ensures ReplayFile(h, FileOf(h, rs), active) == Replayed(rs, |FileOf(h, rs)|)
  {
    hide PutHeader, GetHeader, Frame, Fits, Logged, Decode;
    GetPutHeader(h, Frames(rs));
    assert FileOf(h, rs)[HEADER_SIZE..] == Frames(rs);
    assert Frames(rs) + [] == Frames(rs);
    ScanFrames(rs, []);
    assert LoggedAll(rs) == rs;
  }

  /** A whole file is taken if and only if dimension and metric are those of its header,
      whatever the schema fingerprints are. */
  lemma TakenIff(h: Header, h': Header, rs: seq<WalRecord>, active: bool)
    requires Settled(rs)
    ensures ReplayFile(h', FileOf(h, rs), active).Replayed? <==> h'.dim == h.dim && h'.metric == h.metric
    ensures h'.dim == h.dim && h'.metric == h.metric ==>
      ReplayFile(h', FileOf(h, rs), active) == ReplayFile(h, FileOf(h, rs), active) == Replayed(rs, |FileOf(h, rs)|)
  {
    hide PutHeader, GetHeader, Frame, Fits, Logged, Decode, Scan;
    GetPutHeader(h, Frames(rs));
    ReplayWhole(h, rs, active);
  }

  // An empty segment of another schema: two headers that differ in the fingerprint alone.
  lemma OtherSchemaIsTaken()
    ensures var h, h' := Header(4, 0, 1), Header(4, 0, 2);
      h != h' && ReplayFile(h', FileOf(h, []), true) == Replayed([], HEADER_SIZE)
  {
    hide PutHeader;
    TakenIff(Header(4, 0, 1), Header(4, 0, 2), [], true);
    assert |FileOf(Header(4, 0, 1), [])| == HEADER_SIZE;
  }

  // A file cut behind its header: the header, and the frames cut.
  lemma CutFile(h: Header, rs: seq<WalRecord>, n: nat)
    requires Settled(rs) && HEADER_SIZE <= n <= |FileOf(h, rs)|
    ensures n - HEADER_SIZE <= |Frames(rs)| && |FileOf(h, rs)| == HEADER_SIZE + |Frames(rs)|
    ensures var m := n - HEADER_SIZE;
      && FileOf(h, rs)[..n] == PutHeader(h) + Frames(rs)[..m]
      && FileOf(h, rs)[..n][HEADER_SIZE..] == Frames(rs)[..m]
  {
    hide PutHeader, Frame, Frames, Fits, Logged;
    var m := n - HEADER_SIZE;
    assert FileOf(h, rs)[..n] == PutHeader(h) + Frames(rs)[..m];
  }

  // The first k records of a file are its first bytes.
  lemma FilePrefix(h: Header, rs: seq<WalRecord>, k: nat, n: nat)
    requires Settled(rs) && k <= |rs| && n <= |FileOf(h, rs)| && |FileOf(h, rs[..k])| <= n
    ensures FileOf(h, rs)[..n][..|FileOf(h, rs[..k])|] == FileOf(h, rs[..k])
  {
    hide PutHeader, Frame, Frames, Fits, Logged;
    assert rs == rs[..k] + rs[k..];
    FramesConcat(rs[..k], rs[k..]);
  }

  lemma FileSize(h: Header, rs: seq<WalRecord>)
    requires Settled(rs)
    ensures |FileOf(h, rs)| == HEADER_SIZE + |Frames(rs)| && LoggedAll(rs) == rs
  {
    hide PutHeader, Frame, Frames, Fits, Logged;
    assert LoggedAll(rs) == rs;
  }

  // An active file cut anywhere behind its header: the complete records.
  lemma ReplayCut(h: Header, rs: seq<WalRecord>, n: nat) returns (k: nat)
    requires Settled(rs) && HEADER_SIZE <= n <= |FileOf(h, rs)|
    ensures k <= |rs| && |FileOf(h, rs[..k])| <= n && (k < |rs| ==> n < |FileOf(h, rs[..k + 1])|)
    ensures ReplayFile(h, FileOf(h, rs)[..n], true) == Replayed(rs[..k], |FileOf(h, rs[..k])|)
    ensures FileOf(h, rs)[..n][..|FileOf(h, rs[..k])|] == FileOf(h, rs[..k])
  {
    hide PutHeader, GetHeader, Frame, Frames, Fits, Logged, Decode, Scan, FileOf;
    var m := n - HEADER_SIZE;
    CutFile(h, rs, n);
    k := ScanCut(rs, m);
    SettledPrefix(rs, k);
    FileSize(h, rs[..k]);
    if k < |rs| {
      SettledPrefix(rs, k + 1);
      FileSize(h, rs[..k + 1]);
    }
    GetPutHeader(h, Frames(rs)[..m]);
    FilePrefix(h, rs, k, n);
  }

  // ----- the state of a log -----

  /** What one call of a log does to its contents: an append; a truncate that drops a prefix
      up to its bound; nothing (a rotation, a sync, a clean reopening); or a reopening after
      a crash that lost the last n records, all beyond lsn `stable`. */
  datatype Event = Appended(r: WalRecord) | Reclaimed(upto: nat, k: nat) | Unchanged | Lost(n: nat, stable: nat)

  ghost predicate Happens(c: seq<WalRecord>, e: Event, c': seq<WalRecord>) {
    match e
    case Appended(r) => c' == c + [Logged(r)]
    case Reclaimed(upto, k) => k <= |c| && AtMost(c[..k], upto) && c' == c[k..]
    case Unchanged => c' == c
    case Lost(n, stable) =>
      n <= |c| && c' == c[..|c| - n] && forall i :: |c| - n <= i < |c| ==> c[i].lsn > stable
  }

  ghost predicate History(states: seq<seq<WalRecord>>, events: seq<Event>) {
    && |states| == |events| + 1 && states[0] == []
    && forall i :: 0 <= i < |events| ==> Happens(states[i], events[i], states[i + 1])
  }

  // What was appended and not lost.
  function EverLogged(events: seq<Event>): seq<WalRecord> {
    if events == [] then [] else WithEvent(EverLogged(events[..|events| - 1]), events[|events| - 1])
  }

  function WithEvent(ever: seq<WalRecord>, e: Event): seq<WalRecord> {
    match e
    case Appended(r) => ever + [Logged(r)]
    case Lost(n, _) => if n <= |ever| then ever[..|ever| - n] else []
    case _ => ever
  }

  function LargestBound(events: seq<Event>): nat {
    if events == [] then 0
    else
      var b, e := LargestBound(events[..|events| - 1]), events[|events| - 1];
      if e.Reclaimed? && e.upto > b then e.upto else b
  }

  // Where record j of a file ends.
  ghost function EndOf(h: Header, rs: seq<WalRecord>, j: nat): nat
    requires j < |rs|
  {
    if Settled(rs[..j + 1]) then |FileOf(h, rs[..j + 1])| else 0
  }

  lemma EndWithin(h: Header, rs: seq<WalRecord>, j: nat)
    requires Settled(rs) && j < |rs|
    ensures EndOf(h, rs, j) <= |FileOf(h, rs)|
  {
    hide Frame, Fits, Logged, PutHeader;
    assert rs == rs[..j + 1] + rs[j + 1..];
    FramesConcat(rs[..j + 1], rs[j + 1..]);
  }

  /** All of a log: its segments, the records in each, and how much of each file is synced.
      The last two are ghost state of the class Wal. */
  datatype Log = Log(header: Header, segments: seq<Segment>, logs: seq<seq<WalRecord>>, synced: seq<nat>)

  function All(g: Log): seq<WalRecord> { Flatten(g.logs) }

  ghost predicate LogOK(g: Log) {
    && |g.segments| == |g.logs| == |g.synced| > 0
    && (forall i :: 0 <= i < |g.segments| ==> PlaceOK(g, i))
    && (forall i, j :: 0 <= i < j < |g.segments| ==> g.segments[i].number < g.segments[j].number)
    && Ascending(All(g))
  }

  // Only the last segment is open; the others hold records and are synced to their end.
  ghost predicate PlaceOK(g: Log, i: nat)
    requires |g.segments| == |g.logs| == |g.synced| && i < |g.segments|
  {
    && SegmentOK(g.header, g.segments[i], g.logs[i])
    && (g.segments[i].sealed <==> i + 1 < |g.segments|)
    && HEADER_SIZE <= g.synced[i] <= |g.segments[i].file|
    && (g.segments[i].sealed ==> g.logs[i] != [] && g.synced[i] == |g.segments[i].file|)
  }

  // Every record up to lsn l is in the first `bytes` bytes of segment `number`, or in an
  // earlier segment.
  ghost predicate Covers(g: Log, number: nat, bytes: nat, l: nat) {
    && |g.segments| == |g.logs| > 0 && number <= g.segments[|g.segments| - 1].number
    && (forall i :: 0 <= i < |g.segments| && g.segments[i].number == number ==> bytes <= |g.segments[i].file|)
    && forall i, j :: 0 <= i < |g.logs| && 0 <= j < |g.logs[i]| && g.logs[i][j].lsn <= l ==>
         || g.segments[i].number < number
         || (g.segments[i].number == number && EndOf(g.header, g.logs[i], j) <= bytes)
  }

  // Every record up to lsn l is synced.
  ghost predicate Stable(g: Log, l: nat) {
    |g.logs| == |g.synced| &&
    forall i, j :: 0 <= i < |g.logs| && 0 <= j < |g.logs[i]| && g.logs[i][j].lsn <= l ==>
      EndOf(g.header, g.logs[i], j) <= g.synced[i]
  }

  // ----- what each operation does to the state -----

  function Rotated(g: Log): Log
    requires |g.segments| == |g.logs| == |g.synced| > 0
  {
    var n := |g.segments| - 1;
    var last := g.segments[n];
    g.(segments := g.segments[n := last.(sealed := true)] + [Segment(last.number + 1, 0, 0, false,
      PutHeader(g.header))],
       logs := g.logs + [[]], synced := g.synced[n := |last.file|] + [HEADER_SIZE])
  }

  lemma RotateKeeps(g: Log)
    requires LogOK(g) && g.logs[|g.logs| - 1] != []
    ensures LogOK(Rotated(g)) && All(Rotated(g)) == All(g)
    ensures forall number, bytes, l :: Covers(g, number, bytes, l) ==> Covers(Rotated(g), number, bytes, l)
    ensures forall l :: Stable(g, l) ==> Stable(Rotated(g), l)
  {
    hide Settled, FileOf, PutHeader, Ascending, EndOf, All;
    var g', n := Rotated(g), |g.segments| - 1;
    RotateContents(g);
    EmptyFile(g.header);
    forall i | 0 <= i < |g'.segments| ensures PlaceOK(g', i) { if i <= n { assert PlaceOK(g, i); } }
    RotateCovers(g);
    forall l | Stable(g, l) ensures Stable(g', l) {
      forall i, j | 0 <= i < |g'.logs| && 0 <= j < |g'.logs[i]| && g'.logs[i][j].lsn <= l
        ensures EndOf(g'.header, g'.logs[i], j) <= g'.synced[i]
      {
        assert PlaceOK(g, i);
      }
    }
  }

  lemma RotateContents(g: Log)
    requires |g.segments| == |g.logs| == |g.synced| > 0
    ensures All(Rotated(g)) == All(g)
  {
    FlattenConcat(g.logs, [[]]);
    FlattenOne<WalRecord>([]);
  }

  lemma RotateCovers(g: Log)
    requires LogOK(g)
    ensures forall number, bytes, l :: Covers(g, number, bytes, l) ==> Covers(Rotated(g), number, bytes, l)
  {
    hide Settled, FileOf, PutHeader, Ascending, EndOf, Flatten, SegmentOK;
    var g', n := Rotated(g), |g.segments| - 1;
    forall number, bytes, l | Covers(g, number, bytes, l) ensures Covers(g', number, bytes, l) {
      forall i, j | 0 <= i < |g'.logs| && 0 <= j < |g'.logs[i]| && g'.logs[i][j].lsn <= l
        ensures g'.segments[i].number < number
          || (g'.segments[i].number == number && EndOf(g'.header, g'.logs[i], j) <= bytes)
      {
        assert i <= n && g.logs[i][j].lsn <= l;
      }
    }
  }

  lemma EmptyFile(h: Header)
    ensures Settled([]) && FileOf(h, []) == PutHeader(h) && |PutHeader(h)| == HEADER_SIZE
  {
  }

  // The file that a record goes into: the open one, or a new one when the open one has records
  // and would grow beyond the limit; then the open one is sealed as it is.
  ghost predicate Extended(was: seq<Segment>, now: seq<Segment>, header: Header, limit: nat, r: WalRecord)
    requires Fits(r) && |was| > 0
  {
    var last := was[|was| - 1];
    if |last.file| > 32 && |last.file| + |Frame(r)| > limit then
      now == was[|was| - 1 := last.(sealed := true)]
             + [Segment(last.number + 1, r.lsn, r.lsn, false, PutHeader(header) + Frame(r))]
    else
      now == was[|was| - 1 := last.(firstLsn := if last.firstLsn == 0 then r.lsn else last.firstLsn,
                                    lastLsn := r.lsn, file := last.file + Frame(r))]
  }

  lemma ExtendedIs(before: Log, g: Log, r: WalRecord, limit: nat)
    requires |before.segments| == |before.logs| == |before.synced| > 0 && Fits(r)
    requires var last := before.segments[|before.segments| - 1];
      g == if |last.file| > HEADER_SIZE && |last.file| + |Frame(r)| > limit then Rotated(before) else before
    ensures Extended(before.segments, Written(g, r).segments, before.header, limit, r)
  {
    hide Frame, Fits, Logged;
  }

  function Written(g: Log, r: WalRecord): Log
    requires |g.segments| == |g.logs| > 0 && Fits(r)
  {
    var n := |g.segments| - 1;
    var last := g.segments[n];
    g.(segments := g.segments[n := Segment(last.number, if last.firstLsn == 0 then r.lsn else last.firstLsn, r.lsn,
                                           last.sealed, last.file + Frame(r))],
       logs := g.logs[n := g.logs[n] + [Logged(r)]])
  }

  lemma WriteContents(g: Log, r: WalRecord)
    requires LogOK(g) && Fits(r)
    ensures All(Written(g, r)) == All(g) + [Logged(r)]
  {
    var n := |g.logs| - 1;
    assert g.logs == g.logs[..n] + [g.logs[n]];
    assert Written(g, r).logs == g.logs[..n] + [g.logs[n] + [Logged(r)]];
    FlattenConcat(g.logs[..n], [g.logs[n]]);
    FlattenConcat(g.logs[..n], [g.logs[n] + [Logged(r)]]);
    FlattenOne(g.logs[n]);
    FlattenOne(g.logs[n] + [Logged(r)]);
  }

  lemma WritePlace(g: Log, r: WalRecord, i: nat)
    requires LogOK(g) && Fits(r) && r.lsn > 0 && i < |g.segments|
    ensures PlaceOK(Written(g, r), i)
  {
    hide Frame, Fits, Logged, PutHeader, Ascending, Flatten;
    assert PlaceOK(g, i);
    LoggedFrame(r);
    LoggedLsn(r);
    if i == |g.segments| - 1 { AppendToFile(g.header, g.logs[i], Logged(r)); }
  }

  lemma LoggedLsn(r: WalRecord)
    ensures Logged(r).lsn == r.lsn
  {
  }

  // A record's place in its file does not move when more are written.
  lemma WriteEnds(g: Log, r: WalRecord, i: nat, j: nat)
    requires LogOK(g) && Fits(r) && i < |g.logs| && j < |g.logs[i]|
    ensures j < |Written(g, r).logs[i]| && Written(g, r).logs[i][j] == g.logs[i][j]
    ensures EndOf(g.header, Written(g, r).logs[i], j) == EndOf(g.header, g.logs[i], j)
  {
    hide Frame, Fits, Logged, Settled, FileOf, PlaceOK, Ascending, All;
    assert Written(g, r).logs[i][..j + 1] == g.logs[i][..j + 1];
  }

  lemma WriteKeeps(g: Log, r: WalRecord)
    requires LogOK(g) && Fits(r) && r.lsn > 0 && AtMost(All(g), r.lsn - 1)
    ensures LogOK(Written(g, r)) && All(Written(g, r)) == All(g) + [Logged(r)]
  {
    hide Frame, Fits, Logged, PutHeader, Flatten, Settled, FileOf;
    WriteContents(g, r);
    LoggedLsn(r);
    forall i | 0 <= i < |g.segments| ensures PlaceOK(Written(g, r), i) { WritePlace(g, r, i); }
  }

  lemma WriteCovers(g: Log, r: WalRecord, number: nat, bytes: nat, l: nat)
    requires LogOK(g) && Fits(r) && Covers(g, number, bytes, l) && l < r.lsn
    ensures Covers(Written(g, r), number, bytes, l)
  {
    hide Frame, Fits, Logged, EndOf, SegmentOK, Flatten, Ascending;
    var g' := Written(g, r);
    LoggedLsn(r);
    forall i, j | 0 <= i < |g'.logs| && 0 <= j < |g'.logs[i]| && g'.logs[i][j].lsn <= l
      ensures g'.segments[i].number < number
        || (g'.segments[i].number == number && EndOf(g'.header, g'.logs[i], j) <= bytes)
    {
      assert j < |g.logs[i]|;
      WriteEnds(g, r, i, j);
    }
  }

  lemma WriteStable(g: Log, r: WalRecord, l: nat)
    requires LogOK(g) && Fits(r) && Stable(g, l) && l < r.lsn
    ensures Stable(Written(g, r), l)
  {
    hide Frame, Fits, Logged, EndOf, SegmentOK, Flatten, Ascending;
    var g' := Written(g, r);
    LoggedLsn(r);
    forall i, j | 0 <= i < |g'.logs| && 0 <= j < |g'.logs[i]| && g'.logs[i][j].lsn <= l
      ensures EndOf(g'.header, g'.logs[i], j) <= g'.synced[i]
    {
      assert j < |g.logs[i]|;
      WriteEnds(g, r, i, j);
    }
  }

  // The whole of what is logged, at the end of the open file.
  lemma CoversAll(g: Log, l: nat)
    requires LogOK(g)
    ensures var last := g.segments[|g.segments| - 1]; Covers(g, last.number, |last.file|, l)
  {
    hide Settled, FileOf, EndOf, Ascending, All;
    var n := |g.segments| - 1;
    forall i, j | 0 <= i < |g.logs| && 0 <= j < |g.logs[i]|
      ensures g.segments[i].number < g.segments[n].number
        || (g.segments[i].number == g.segments[n].number && EndOf(g.header, g.logs[i], j) <= |g.segments[n].file|)
    {
      assert PlaceOK(g, i);
      EndWithin(g.header, g.logs[i], j);
    }
  }

  // ----- fsync -----

  function Fsynced(g: Log, number: nat, bytes: nat): Log
    requires |g.segments| == |g.synced|
  {
    g.(synced := seq(|g.synced|, i requires 0 <= i < |g.synced| =>
      if g.segments[i].number == number && g.synced[i] < bytes then bytes else g.synced[i]))
  }

  // An fsync of the file that was open when the high-water lsn was read makes every
  // record up to that lsn stable, whatever was appended, rotated or reclaimed meanwhile.
  lemma FsyncStable(g: Log, number: nat, bytes: nat, l: nat)
    requires LogOK(g) && Covers(g, number, bytes, l)
    ensures LogOK(Fsynced(g, number, bytes)) && Stable(Fsynced(g, number, bytes), l)
  {
    hide Settled, FileOf, EndOf, Ascending, Flatten;
    var g' := Fsynced(g, number, bytes);
    forall i | 0 <= i < |g'.segments| ensures PlaceOK(g', i) { assert PlaceOK(g, i); }
    forall i, j | 0 <= i < |g.logs| && 0 <= j < |g.logs[i]| && g.logs[i][j].lsn <= l
      ensures EndOf(g.header, g.logs[i], j) <= g'.synced[i]
    {
      assert PlaceOK(g, i);
      if g.segments[i].number < number { EndWithin(g.header, g.logs[i], j); }
    }
  }

  // ----- reclaiming -----

  function Without(g: Log, m: nat): Log
    requires m < |g.segments| == |g.logs| == |g.synced|
  {
    g.(segments := g.segments[m..], logs := g.logs[m..], synced := g.synced[m..])
  }

  lemma WithoutKeeps(g: Log, m: nat) returns (k: nat)
    requires LogOK(g) && m < |g.segments|
    ensures LogOK(Without(g, m)) && k <= |All(g)| && All(Without(g, m)) == All(g)[k..]
    ensures All(g)[..k] == Flatten(g.logs[..m])
  {
    hide Settled, FileOf, Flatten, SegmentOK;
    assert g.logs == g.logs[..m] + g.logs[m..];
    FlattenConcat(g.logs[..m], g.logs[m..]);
    k := |Flatten(g.logs[..m])|;
    assert All(Without(g, m)) == All(g)[k..];
    forall i | 0 <= i < |g.segments| - m ensures PlaceOK(Without(g, m), i) { assert PlaceOK(g, i + m); }
  }

  lemma WithoutCovers(g: Log, m: nat, number: nat, bytes: nat, l: nat)
    requires LogOK(g) && m < |g.segments| && Covers(g, number, bytes, l)
    ensures Covers(Without(g, m), number, bytes, l)
  {
    hide PlaceOK, Ascending, All, EndOf;
    var g' := Without(g, m);
    forall i, j | 0 <= i < |g'.logs| && 0 <= j < |g'.logs[i]| && g'.logs[i][j].lsn <= l
      ensures g'.segments[i].number < number
        || (g'.segments[i].number == number && EndOf(g'.header, g'.logs[i], j) <= bytes)
    {
      assert g.logs[i + m][j].lsn <= l;
    }
  }

  lemma WithoutStable(g: Log, m: nat, l: nat)
    requires LogOK(g) && m < |g.segments| && Stable(g, l)
    ensures Stable(Without(g, m), l)
  {
    hide PlaceOK, Ascending, All, EndOf;
    var g' := Without(g, m);
    forall i, j | 0 <= i < |g'.logs| && 0 <= j < |g'.logs[i]| && g'.logs[i][j].lsn <= l
      ensures EndOf(g'.header, g'.logs[i], j) <= g'.synced[i]
    {
      assert g.logs[i + m][j].lsn <= l;
    }
  }

  // The last lsns of two segments are ordered as the segments are.
  lemma LastsAscend(g: Log, i: nat, j: nat)
    requires LogOK(g) && i < j < |g.segments| && g.logs[j] != []
    ensures g.segments[i].lastLsn < g.segments[j].lastLsn
  {
    hide Settled, FileOf, Prefix;
    assert PlaceOK(g, i) && PlaceOK(g, j);
    FlattenIndex(g.logs, i, |g.logs[i]| - 1);
    FlattenIndex(g.logs, j, |g.logs[j]| - 1);
    OffsetsGrow(g.logs, i + 1, j);
  }

  lemma {:induction false} OffsetsGrow(rows: seq<seq<WalRecord>>, i: nat, j: nat)
    requires i <= j <= |rows|
    ensures Offset(rows, i) <= Offset(rows, j)
    ensures i > 0 ==> Offset(rows, i - 1) + |rows[i - 1]| <= Offset(rows, j)
  {
    if i < j { OffsetsGrow(rows, i, j - 1); }
  }

  // When the last lsn of each of the first m segments is at most l, so is every lsn there.
  lemma {:induction false} AllAtMost(g: Log, m: nat, l: nat)
    requires LogOK(g) && m <= |g.segments| && forall i :: 0 <= i < m ==> g.segments[i].lastLsn <= l
    ensures AtMost(Flatten(g.logs[..m]), l)
  {
    hide Settled, FileOf;
    if m > 0 {
      AllAtMost(g, m - 1, l);
      assert g.logs[..m] == g.logs[..m - 1] + [g.logs[m - 1]];
      FlattenConcat(g.logs[..m - 1], [g.logs[m - 1]]);
      FlattenOne(g.logs[m - 1]);
      SegmentAtMost(g, m - 1, l);
      BoundConcat(Flatten(g.logs[..m - 1]), g.logs[m - 1], l);
    }
  }

  lemma SegmentAtMost(g: Log, i: nat, l: nat)
    requires LogOK(g) && i < |g.segments| && g.segments[i].lastLsn <= l
    ensures AtMost(g.logs[i], l)
  {
    hide Settled, FileOf, Prefix;
    assert PlaceOK(g, i);
    forall j | 0 <= j < |g.logs[i]| ensures g.logs[i][j].lsn <= l {
      FlattenIndex(g.logs, i, j);
      FlattenIndex(g.logs, i, |g.logs[i]| - 1);
    }
  }

  // ----- the log -----

  class Wal {
    const header: Header
    const segMax: nat
    var segments: seq<Segment>
    var activeBytes: nat
    var highest: Long
    ghost var logs: seq<seq<WalRecord>>
    ghost var synced: seq<nat>

    ghost function Snapshot(): Log
      reads this
    {
      Log(header, segments, logs, synced)
    }

    ghost predicate Valid()
      reads this
    {
      && LogOK(Snapshot()) && activeBytes == |segments[|segments| - 1].file|
      && AtMost(Contents(), highest)
    }

    // Every record that was appended and not reclaimed, in order.
    ghost function Contents(): seq<WalRecord>
      reads this
    {
      All(Snapshot())
    }

    // A new directory: `open_new_segment_`.
    constructor (h: Header, segmentMax: nat)
      ensures Valid() && Contents() == [] && header == h && segMax == segmentMax
    {
      header, segMax := h, segmentMax;
      segments := [Segment(1, 0, 0, false, PutHeader(h))];
      activeBytes, highest := HEADER_SIZE, 0;
      logs, synced := [[]], [HEADER_SIZE];
      new;
      FlattenOne<WalRecord>([]);
      EmptyFile(h);
      assert PlaceOK(Snapshot(), 0);
    }

    // An existing directory: the segment files in order of their numbers.
    constructor Open(h: Header, segmentMax: nat, files: seq<(nat, Bytes)>)
      requires files != []
      ensures header == h && segMax == segmentMax && highest == 0
      ensures Found(segments) && |segments| == |files|
      ensures forall i :: 0 <= i < |files| ==> segments[i].number == files[i].0 && segments[i].file == files[i].1
      ensures activeBytes == |files[|files| - 1].1|
    {
      header, segMax := h, segmentMax;
      segments := seq(|files|, i requires 0 <= i < |files| => Segment(files[i].0, 0, 0, i + 1 < |files|, files[i].1));
      activeBytes, highest := |files[|files| - 1].1|, 0;
      logs, synced := [], [];
    }

    // A record of segment i was read: its metadata and the high-water lsn.
    method NoteRecord(i: nat, lsn: Long)
      requires i < |segments|
      modifies this`segments, this`highest
      ensures segments == old(segments)[i := old(segments[i]).(
        firstLsn := if old(segments[i].firstLsn) == 0 then lsn else old(segments[i].firstLsn), lastLsn := lsn)]
      ensures highest == (if lsn > old(highest) then lsn else old(highest))
    {
      if segments[i].firstLsn == 0 {
        segments := segments[i := segments[i].(firstLsn := lsn)];
      }
      segments := segments[i := segments[i].(lastLsn := lsn)];
      if lsn > highest {
        highest := lsn;
      }
    }

    // The part of `replay` for one segment; None stands for the exception.
    method ReplaySegment(i: nat) returns (recs: Option<seq<WalRecord>>)
      requires i < |segments|
      modifies this`segments, this`activeBytes, this`highest
      ensures match ReplayFile(header, old(segments[i].file), i + 1 == old(|segments|))
        case Corrupt => recs.None?
        case Replayed(rs, used) =>
          && recs == Some(rs) && used <= |old(segments[i].file)|
          && segments == old(segments)[i := Noted(old(segments[i]), rs).(file := old(segments[i].file)[..used])]
          && highest == Highest(old(highest), rs)
          && activeBytes == (if i + 1 == |segments| then used else old(activeBytes))
    {
      hide Decode, GetHeader, Noted, Highest, Scan;
      var isActive := i + 1 == |segments|;
      var bytes := segments[i].file;
      var head := GetHeader(bytes);
      if head.None? || head.value.dim != header.dim || head.value.metric != header.metric {
        return None;
      }
      var off := HEADER_SIZE;
      var out: seq<WalRecord> := [];
      HeaderFits(bytes);
      ghost var scan := Scan(bytes[HEADER_SIZE..]);
      ghost var seg0, low := segments[i], highest;
      NotedNone(seg0, low);
      while off < |bytes|
        invariant HEADER_SIZE <= off <= |bytes|
        invariant ScannedTo(scan, out, off, bytes)
        invariant i < old(|segments|) && segments == old(segments)[i := Noted(seg0, out)]
        invariant highest == Highest(low, out) && activeBytes == old(activeBytes)
        decreases |bytes| - off
      {
        var d := Decode(bytes[off..]);
        ScanStep(bytes[off..]);
        if !d.Ok? {
          if !isActive {
            return None;
          }
          // torn tail: the file is cut back to the last good boundary
          NotedFile(seg0, out);
          assert out + [] == out;
          segments := segments[i := segments[i].(file := bytes[..off])];
          activeBytes := off;
          return Some(out);
        }
        NotedSnoc(seg0, low, out, d.rec);
        assert bytes[off..][d.consumed..] == bytes[off + d.consumed..];
        out := out + [d.rec];
        NoteRecord(i, d.rec.lsn);
        off := off + d.consumed;
      }
      NotedFile(seg0, out);
      assert out + [] == out && bytes[..|bytes|] == bytes;
      ScanEnd();
      if isActive {
        activeBytes := |bytes|;
      }
      recs := Some(out);
    }

    // `replay`. When the files are what a crash left of a log g, the records that come back
    // are a prefix of g's that holds everything stable, and the log is ready for appends.
    method Replay(ghost g: Log) returns (recs: Option<seq<WalRecord>>)
      requires Found(segments) && highest == 0 && activeBytes == |segments[|segments| - 1].file|
      modifies this
      ensures recs.Some? <==> Readable(header, old(segments))
      ensures LeftBy(old(segments), g) && g.header == header ==>
        && recs.Some? && Valid() && recs.value == Contents() && Kept(g, Contents())
        && forall l: nat :: Stable(g, l) ==> Happens(All(g), Lost(|All(g)| - |Contents()|, l), Contents())
    {
      hide LeftBy, LogOK, ReplayFile, Noted, Highest, Kept, AtMost, ScannedTo, Flatten, Stable, Happens;
      ghost var old_ := segments;
      var out: seq<WalRecord> := [];
      ghost var rows: seq<seq<WalRecord>> := [];
      FlattenNone();
      if LeftBy(old_, g) && g.header == header {
        LeftReadable(g, old_);
      }
      for i := 0 to |segments|
        invariant |segments| == |old_| > 0 && |rows| == i && out == Flatten(rows)
        invariant forall j :: 0 <= j < i ==>
          && var f := ReplayFile(header, old_[j].file, j + 1 == |old_|);
          && f.Replayed? && rows[j] == f.recs && segments[j] == Restored(header, old_[j], j + 1 == |old_|)
        invariant forall j :: i <= j < |old_| ==> segments[j] == old_[j]
        invariant AtMost(out, highest)
        invariant i == |old_| ==> activeBytes == |segments[|segments| - 1].file|
      {
        ghost var low := highest;
        var some := ReplaySegment(i);
        if some.None? {
          return None;
        }
        HighestBounds(low, some.value);
        BoundBelow(out, low, highest);
        BoundConcat(out, some.value, highest);
        RowsSnoc(rows, some.value);
        RestoredIs(header, old_[i], i + 1 == |old_|);
        out := out + some.value;
        rows := rows + [some.value];
      }
      logs := rows;
      synced := Lengths(header, old_);
      recs := Some(out);
      if LeftBy(old_, g) && g.header == header {
        ReopenedOK(g, old_, Snapshot());
        KeptIsLoss(g, Contents());
      }
    }

    // `rotate_`: the open file is synced and sealed, and the next one begun.
    method Rotate()
      requires Valid() && logs[|logs| - 1] != []
      modifies this`segments, this`activeBytes, this`logs, this`synced
      ensures Valid() && Snapshot() == Rotated(old(Snapshot())) && Happens(old(Contents()), Unchanged, Contents())
    {
      hide LogOK, AtMost;
      RotateKeeps(Snapshot());
      OpenFile(Snapshot());
      var n := |segments| - 1;
      synced := synced[n := |segments[n].file|];
      segments := segments[n := segments[n].(sealed := true)];
      segments := segments + [Segment(segments[n].number + 1, 0, 0, false, PutHeader(header))];
      activeBytes := HEADER_SIZE;
      logs, synced := logs + [[]], synced + [HEADER_SIZE];
    }

    // Lsns are handed out in increasing order, starting at one.
    method Append(r: WalRecord)
      requires Valid() && Fits(r) && highest < r.lsn
      modifies this
      ensures Valid() && Happens(old(Contents()), Appended(r), Contents()) && highest == r.lsn
      ensures forall number: nat, bytes: nat, l: nat ::
        l < r.lsn && Covers(old(Snapshot()), number, bytes, l) ==> Covers(Snapshot(), number, bytes, l)
      ensures forall l: nat :: l < r.lsn && Stable(old(Snapshot()), l) ==> Stable(Snapshot(), l)
      ensures |old(segments)| > 0 && Extended(old(segments), segments, header, segMax, r)
    {
      hide LogOK, AtMost, Covers, Stable, Frame, Fits, Logged, Flatten, Rotated, Written, Extended;
      ghost var before := Snapshot();
      OpenFile(before);
      var frame := Frame(r);
      if activeBytes > HEADER_SIZE && activeBytes + |frame| > segMax {
        HoldsRecord(Snapshot());
        RotateKeeps(Snapshot());
        Rotate();
      }
      ghost var g := Snapshot();
      BoundBelow(All(g), highest, r.lsn - 1);
      WriteKeeps(g, r);
      OpenFile(g);
      forall number: nat, bytes: nat, l: nat | l < r.lsn && Covers(g, number, bytes, l)
        ensures Covers(Written(g, r), number, bytes, l)
      {
        WriteCovers(g, r, number, bytes, l);
      }
      forall l: nat | l < r.lsn && Stable(g, l) ensures Stable(Written(g, r), l) { WriteStable(g, r, l); }
      LoggedLsn(r);
      BoundSnoc(All(g), Logged(r), r.lsn);
      ExtendedIs(before, g, r, segMax);
      WriteFrame(r, frame);
    }

    // The write at the end of the open file, and its metadata.
    method WriteFrame(r: WalRecord, frame: Bytes)
      requires Valid() && Fits(r) && frame == Frame(r)
      modifies this
      ensures Snapshot() == Written(old(Snapshot()), r) &&
        highest == (if r.lsn > old(highest) then r.lsn else old(highest))
      ensures |segments| > 0 && activeBytes == |segments[|segments| - 1].file|
    {
      hide AtMost, Frame, Fits, Logged, All, Ascending;
      ghost var g := Snapshot();
      OpenFile(g);
      var n := |segments| - 1;
      segments := segments[n := segments[n].(file := segments[n].file + frame)];
      activeBytes := activeBytes + |frame|;
      if segments[n].firstLsn == 0 {
        segments := segments[n := segments[n].(firstLsn := r.lsn)];
      }
      segments := segments[n := segments[n].(lastLsn := r.lsn)];
      if r.lsn > highest {
        highest := r.lsn;
      }
      logs := logs[n := logs[n] + [Logged(r)]];
      assert Snapshot() == Written(g, r);
    }

    // The first half of `sync`: the open file and the high-water lsn, read together.
    method SyncBegin() returns (target: Long, ghost number: nat, ghost bytes: nat)
      requires Valid()
      ensures target == highest && Covers(Snapshot(), number, bytes, target)
    {
      hide AtMost;
      CoversAll(Snapshot(), highest);
      target := highest;
      number, bytes := segments[|segments| - 1].number, activeBytes;
    }

    // The second half, at any later time: the fsync of that file.
    ghost method SyncEnd(number: nat, bytes: nat, target: nat)
      requires Valid() && Covers(Snapshot(), number, bytes, target)
      modifies this`synced
      ensures Valid() && Stable(Snapshot(), target) && Happens(old(Contents()), Unchanged, Contents())
    {
      hide AtMost, Stable, Covers;
      FsyncStable(Snapshot(), number, bytes, target);
      synced := Fsynced(Snapshot(), number, bytes).synced;
    }

    // `truncate`: unlinks sealed segments that end at or below the bound. What is dropped
    // is a prefix, nothing above the bound is, and no sealed segment at or below it stays.
    method Truncate(upto: Long) returns (ghost k: nat)
      requires Valid()
      modifies this`segments, this`logs, this`synced
      ensures Valid() && Happens(old(Contents()), Reclaimed(upto, k), Contents())
      ensures forall i :: 0 <= i < |segments| && segments[i].sealed ==> segments[i].lastLsn > upto
      ensures forall number, bytes, l ::
        Covers(old(Snapshot()), number, bytes, l) ==> Covers(Snapshot(), number, bytes, l)
      ensures forall l :: Stable(old(Snapshot()), l) ==> Stable(Snapshot(), l)
    {
      hide Covers, Stable, SegmentOK, Ascending, Flatten;
      ghost var g := Snapshot();
      var all := segments;
      var survivors: seq<Segment> := [];
      ghost var m: nat := 0;
      for i := 0 to |all|
        invariant Snapshot() == g && m <= i && survivors == all[m..i]
        invariant forall j :: 0 <= j < m ==> all[j].lastLsn <= upto && all[j].sealed
        invariant forall j :: m <= j < i && all[j].sealed ==> all[j].lastLsn > upto
      {
        var seg := all[i];
        var isActive := i + 1 == |all|;
        PlaceFacts(g, i);
        if !isActive && seg.sealed && seg.lastLsn != 0 && seg.lastLsn <= upto {
          if m < i {
            PlaceFacts(g, m);
            LastsAscend(g, m, i);
          }
          m := i + 1;
        } else {
          survivors := survivors + [seg];
        }
      }
      PlaceFacts(g, |segments| - 1);
      k := WithoutKeeps(g, m);
      AllAtMost(g, m, upto);
      forall number, bytes, l | Covers(g, number, bytes, l) ensures Covers(Without(g, m), number, bytes, l) {
        WithoutCovers(g, m, number, bytes, l);
      }
      forall l | Stable(g, l) ensures Stable(Without(g, m), l) { WithoutStable(g, m, l); }
      segments := survivors;
      logs, synced := logs[m..], synced[m..];
      assert Snapshot() == Without(g, m);
      DropBound(All(g), k, highest);
    }
  }

  // ----- reopening -----

  // A segment's metadata after its records were replayed.
  function Noted(s: Segment, rs: seq<WalRecord>): Segment {
    if rs == [] then s
    else
      var before, r := Noted(s, rs[..|rs| - 1]), rs[|rs| - 1];
      before.(firstLsn := if before.firstLsn == 0 then r.lsn else before.firstLsn, lastLsn := r.lsn)
  }

  function Highest(l: Long, rs: seq<WalRecord>): Long {
    if rs == [] then l
    else
      var h, r := Highest(l, rs[..|rs| - 1]), rs[|rs| - 1];
      if r.lsn > h then r.lsn else h
  }

  lemma NotedSnoc(s: Segment, l: Long, rs: seq<WalRecord>, r: WalRecord)
    ensures var before := Noted(s, rs);
      Noted(s, rs + [r]) ==
        before.(firstLsn := if before.firstLsn == 0 then r.lsn else before.firstLsn, lastLsn := r.lsn)
    ensures Highest(l, rs + [r]) == (if r.lsn > Highest(l, rs) then r.lsn else Highest(l, rs))
  {
    assert (rs + [r])[..|rs|] == rs;
  }

  lemma {:induction false} NotedSettled(s: Segment, rs: seq<WalRecord>)
    requires s.firstLsn == 0 && s.lastLsn == 0 && Settled(rs)
    ensures Noted(s, rs) == s.(firstLsn := if rs == [] then 0 else rs[0].lsn,
      lastLsn := if rs == [] then 0 else rs[|rs| - 1].lsn)
  {
    hide Fits, Logged;
    if rs != [] { NotedSettled(s, rs[..|rs| - 1]); }
  }

  lemma {:induction false} HighestBounds(l: Long, rs: seq<WalRecord>)
    ensures l <= Highest(l, rs) && AtMost(rs, Highest(l, rs))
  {
    if rs != [] {
      var rest, last := rs[..|rs| - 1], rs[|rs| - 1];
      HighestBounds(l, rest);
      assert rs == rest + [last];
    }
  }

  lemma ScanStep(s: Bytes)
    requires s != []
    ensures Decode(s).Ok? ==>
      && 0 < Decode(s).consumed <= |s|
      && var rest := Scan(s[Decode(s).consumed..]);
      Scan(s) == Scanned([Decode(s).rec] + rest.recs, Decode(s).consumed + rest.used, rest.stop)
    ensures !Decode(s).Ok? ==> Scan(s) == Scanned([], 0, Some(Decode(s)))
  {
    hide Decode;
    if Decode(s).Ok? { DecodeWithin(s); }
  }

  lemma ScanEnd()
    ensures Scan([]) == Scanned([], 0, None)
  {
  }

  lemma NotedNone(s: Segment, l: Long)
    ensures Noted(s, []) == s && Highest(l, []) == l
  {
  }

  // Segments as `open` finds them: files in order of number, metadata not known yet.
  ghost predicate Found(segments: seq<Segment>) {
    && segments != []
    && forall i :: 0 <= i < |segments| ==>
         && segments[i].firstLsn == 0 && segments[i].lastLsn == 0
         && (segments[i].sealed <==> i + 1 < |segments|)
  }

  // What the log that wrote the files left behind when it crashed: of every sealed file
  // all of it, of the open one a prefix that holds what was synced.
  ghost predicate LeftBy(segments: seq<Segment>, g: Log) {
    && LogOK(g) && |segments| == |g.segments|
    && (forall i :: 0 <= i < |segments| ==> segments[i].number == g.segments[i].number)
    && (forall i :: 0 <= i < |segments| - 1 ==> segments[i].file == g.segments[i].file)
    && var n := |segments| - 1;
    && g.synced[n] <= |segments[n].file| && segments[n].file <= g.segments[n].file
  }

  // Every file replays.
  ghost predicate Readable(h: Header, segments: seq<Segment>) {
    forall i :: 0 <= i < |segments| ==> ReplayFile(h, segments[i].file, i + 1 == |segments|).Replayed?
  }

  // The records are those of g but for a suffix that was not stable.
  ghost predicate Kept(g: Log, recs: seq<WalRecord>) {
    && recs <= All(g)
    && forall l: nat :: Stable(g, l) ==> forall i :: |recs| <= i < |All(g)| ==> All(g)[i].lsn > l
  }

  lemma KeptIsLoss(g: Log, recs: seq<WalRecord>)
    requires Kept(g, recs)
    ensures forall l: nat :: Stable(g, l) ==> |recs| <= |All(g)| && Happens(All(g), Lost(|All(g)| - |recs|, l), recs)
  {
  }

  // A segment after replay.
  function Restored(h: Header, s: Segment, active: bool): Segment {
    var f := ReplayFile(h, s.file, active);
    if f.Replayed? && f.used <= |s.file| then Noted(s, f.recs).(file := s.file[..f.used]) else s
  }

  function Lengths(h: Header, segments: seq<Segment>): seq<nat> {
    seq(|segments|, i requires 0 <= i < |segments| => |Restored(h, segments[i], i + 1 == |segments|).file|)
  }

  lemma RestoredIs(h: Header, s: Segment, active: bool)
    requires ReplayFile(h, s.file, active).Replayed? && ReplayFile(h, s.file, active).used <= |s.file|
    ensures var f := ReplayFile(h, s.file, active);
      Restored(h, s, active) == Noted(s, f.recs).(file := s.file[..f.used])
  {
  }

  lemma FlattenNone()
    ensures Flatten<WalRecord>([]) == [] && AtMost([], 0)
  {
  }

  lemma RowsSnoc(rows: seq<seq<WalRecord>>, row: seq<WalRecord>)
    ensures Flatten(rows + [row]) == Flatten(rows) + row
  {
    FlattenConcat(rows, [row]);
    FlattenOne(row);
  }

  // The segment files of a crashed log, replayed.
  ghost predicate IsReplayOf(old_: seq<Segment>, r: Log) {
    && |r.segments| == |r.logs| == |r.synced| == |old_|
    && forall i :: 0 <= i < |old_| ==>
         && var f := ReplayFile(r.header, old_[i].file, i + 1 == |old_|);
         && f.Replayed? && r.logs[i] == f.recs && r.segments[i] == Restored(r.header, old_[i], i + 1 == |old_|)
         && r.synced[i] == |r.segments[i].file|
  }

  lemma ReopenedOK(g: Log, old_: seq<Segment>, r: Log)
    requires Found(old_) && LeftBy(old_, g) && g.header == r.header && IsReplayOf(old_, r)
    ensures LogOK(r) && Kept(g, All(r))
  {
    hide ReplayFile, Noted, SegmentOK, Ascending, All;
    var n := |old_| - 1;
    var k := LastReopened(g, old_, r);
    forall i | 0 <= i < n ensures PlaceOK(r, i) && r.logs[i] == g.logs[i] { SealedReopened(g, old_, r, i); }
    assert r.logs == g.logs[n := g.logs[n][..k]];
    PrefixKept(g, r, k, |old_[n].file|);
    forall i | 0 <= i < |r.segments| ensures r.segments[i].number == g.segments[i].number {
      NotedFile(old_[i], ReplayFile(r.header, old_[i].file, i + 1 == |old_|).recs);
    }
  }

  lemma LeftReadable(g: Log, old_: seq<Segment>)
    requires Found(old_) && LeftBy(old_, g)
    ensures Readable(g.header, old_)
  {
    hide ReplayFile, FileOf, Settled, Ascending, All;
    forall i | 0 <= i < |old_| ensures ReplayFile(g.header, old_[i].file, i + 1 == |old_|).Replayed? {
      assert PlaceOK(g, i);
      if i + 1 < |old_| {
        ReplayWhole(g.header, g.logs[i], false);
      } else {
        var file := old_[i].file;
        assert file == g.segments[i].file[..|file|];
        var k := ReplayCut(g.header, g.logs[i], |file|);
      }
    }
  }

  lemma SealedReopened(g: Log, old_: seq<Segment>, r: Log, i: nat)
    requires Found(old_) && LeftBy(old_, g) && g.header == r.header && IsReplayOf(old_, r) && i + 1 < |old_|
    ensures PlaceOK(r, i) && r.logs[i] == g.logs[i]
  {
    hide ReplayFile, Noted, FileOf, Settled, Ascending, All;
    assert PlaceOK(g, i);
    ReplayWhole(g.header, g.logs[i], false);
    NotedSettled(old_[i], g.logs[i]);
    assert old_[i].file[..|old_[i].file|] == old_[i].file;
    HeaderWithin(g.header, g.logs[i]);
  }

  lemma HeaderWithin(h: Header, rs: seq<WalRecord>)
    requires Settled(rs)
    ensures |FileOf(h, rs)| >= HEADER_SIZE
  {
  }

  // The open file, cut behind its header, after replay.
  lemma CutReopened(h: Header, rs: seq<WalRecord>, s: Segment) returns (k: nat)
    requires Settled(rs) && s.file <= FileOf(h, rs) && HEADER_SIZE <= |s.file|
    requires s.firstLsn == 0 && s.lastLsn == 0 && !s.sealed
    ensures k <= |rs| && (k < |rs| ==> |s.file| < EndOf(h, rs, k))
    ensures var f, s' := ReplayFile(h, s.file, true), Restored(h, s, true);
      && f.Replayed? && f.recs == rs[..k]
      && SegmentOK(h, s', rs[..k]) && HEADER_SIZE <= |s'.file| && !s'.sealed && s'.number == s.number
  {
    hide ReplayFile, Noted, FileOf, Fits, Logged;
    assert s.file == FileOf(h, rs)[..|s.file|];
    k := ReplayCut(h, rs, |s.file|);
    SettledPrefix(rs, k);
    if k < |rs| { SettledPrefix(rs, k + 1); }
    NotedSettled(s, rs[..k]);
    HeaderWithin(h, rs[..k]);
  }

  lemma LastReopened(g: Log, old_: seq<Segment>, r: Log) returns (k: nat)
    requires Found(old_) && LeftBy(old_, g) && g.header == r.header && IsReplayOf(old_, r)
    ensures k <= |g.logs[|old_| - 1]| && r.logs[|old_| - 1] == g.logs[|old_| - 1][..k]
    ensures PlaceOK(r, |old_| - 1) && Settled(g.logs[|old_| - 1])
    ensures k < |g.logs[|old_| - 1]| ==> |old_[|old_| - 1].file| < EndOf(g.header, g.logs[|old_| - 1], k)
  {
    hide ReplayFile, Noted, FileOf, Settled, Ascending, All, EndOf;
    var n := |old_| - 1;
    assert PlaceOK(g, n);
    k := CutReopened(g.header, g.logs[n], old_[n]);
  }

  lemma SettledPrefix(rs: seq<WalRecord>, k: nat)
    requires Settled(rs) && k <= |rs|
    ensures Settled(rs[..k])
  {
  }

  // What was cut off the open file was not stable.
  lemma PrefixKept(g: Log, r: Log, k: nat, bytes: nat)
    requires LogOK(g) && k <= |g.logs[|g.logs| - 1]|
    requires r.logs == g.logs[|g.logs| - 1 := g.logs[|g.logs| - 1][..k]]
    requires Settled(g.logs[|g.logs| - 1]) && g.synced[|g.logs| - 1] <= bytes
    requires k < |g.logs[|g.logs| - 1]| ==> bytes < EndOf(g.header, g.logs[|g.logs| - 1], k)
    ensures All(r) <= All(g) && Ascending(All(r)) && Kept(g, All(r))
  {
    hide FileOf, Settled, PlaceOK, Flatten, EndOf;
    var n := |g.logs| - 1;
    var first, last := g.logs[..n], g.logs[n];
    assert g.logs == first + [last] && r.logs == first + [last[..k]];
    RowsSnoc(first, last);
    RowsSnoc(first, last[..k]);
    assert All(r) == All(g)[..|All(r)|];
    forall l: nat | Stable(g, l) ensures forall i :: |All(r)| <= i < |All(g)| ==> All(g)[i].lsn > l {
      forall i | |All(r)| <= i < |All(g)| ensures All(g)[i].lsn > l {
        var j := i - |Flatten(first)|;
        assert All(g)[i] == last[j];
        LostLater(g, k, bytes, j);
      }
    }
  }

  // A record beyond the cut ends beyond what was synced.
  lemma LostLater(g: Log, k: nat, bytes: nat, j: nat)
    requires LogOK(g) && Settled(g.logs[|g.logs| - 1]) && k <= j < |g.logs[|g.logs| - 1]|
    requires g.synced[|g.logs| - 1] <= bytes < EndOf(g.header, g.logs[|g.logs| - 1], k)
    ensures EndOf(g.header, g.logs[|g.logs| - 1], j) > g.synced[|g.logs| - 1]
  {
    hide Frame, Fits, Logged, PutHeader, PlaceOK, Ascending, All;
    var rs := g.logs[|g.logs| - 1];
    assert rs[..j + 1] == rs[..k + 1] + rs[k + 1..j + 1];
    FramesConcat(rs[..k + 1], rs[k + 1..j + 1]);
  }

  // ----- facts the methods above need -----

  // A scan of which `out` has been read, up to `off`.
  ghost predicate ScannedTo(scan: Scanned, out: seq<WalRecord>, off: nat, bytes: Bytes)
    requires HEADER_SIZE <= off <= |bytes|
  {
    var rest := Scan(bytes[off..]);
    scan == Scanned(out + rest.recs, off - HEADER_SIZE + rest.used, rest.stop)
  }

  lemma HeaderFits(bytes: Bytes)
    ensures GetHeader(bytes).Some? ==> |bytes| >= HEADER_SIZE
  {
  }

  lemma {:induction false} NotedFile(s: Segment, rs: seq<WalRecord>)
    ensures Noted(s, rs).file == s.file && Noted(s, rs).number == s.number && Noted(s, rs).sealed == s.sealed
  {
    if rs != [] { NotedFile(s, rs[..|rs| - 1]); }
  }

  lemma PlaceFacts(g: Log, i: nat)
    requires LogOK(g) && i < |g.segments|
    ensures g.segments[i].sealed <==> i + 1 < |g.segments|
    ensures g.segments[i].sealed ==> g.logs[i] != [] && g.segments[i].lastLsn > 0
  {
    assert PlaceOK(g, i);
  }

  lemma BoundBelow(rs: seq<WalRecord>, a: nat, b: nat)
    requires AtMost(rs, a) && a <= b
    ensures AtMost(rs, b)
  {
  }

  lemma BoundConcat(a: seq<WalRecord>, b: seq<WalRecord>, l: nat)
    requires AtMost(a, l) && AtMost(b, l)
    ensures AtMost(a + b, l)
  {
  }

  lemma BoundSnoc(rs: seq<WalRecord>, r: WalRecord, l: nat)
    requires l > 0 && AtMost(rs, l - 1) && r.lsn <= l
    ensures AtMost(rs + [r], l)
  {
  }

  lemma DropBound(rs: seq<WalRecord>, k: nat, l: nat)
    requires AtMost(rs, l) && k <= |rs|
    ensures AtMost(rs[k..], l)
  {
  }

  // A file longer than its header holds a record.
  lemma HoldsRecord(g: Log)
    requires LogOK(g) && |g.segments[|g.segments| - 1].file| > HEADER_SIZE
    ensures g.logs[|g.logs| - 1] != []
  {
    hide Frame, Fits, Logged;
    assert PlaceOK(g, |g.segments| - 1);
    EmptyFile(g.header);
  }

  lemma OpenFile(g: Log)
    requires LogOK(g)
    ensures |g.segments| == |g.logs| == |g.synced| > 0
    ensures g.segments[|g.segments| - 1].firstLsn == 0 <==> g.logs[|g.logs| - 1] == []
  {
    assert PlaceOK(g, |g.segments| - 1);
  }

  // ----- whole histories -----

  lemma {:induction false} HistoryPrefix(states: seq<seq<WalRecord>>, events: seq<Event>)
    requires History(states, events) && events != []
    ensures |states| == |events| + 1 && History(states[..|events|], events[..|events| - 1])
    ensures var n := |events| - 1; Happens(states[n], events[n], states[n + 1])
    ensures EverLogged(events) == WithEvent(EverLogged(events[..|events| - 1]), events[|events| - 1])
  {
    hide Happens, WithEvent;
    var n := |events| - 1;
    assert Happens(states[n], events[n], states[n + 1]);
  }

  /** Over any run of appends, rotations, syncs, truncates and reopenings, after crashes or
      not, what a replay gives is what was appended and did not get lost in a crash, in
      order, minus a prefix whose lsns are all within the largest bound of a truncate. */
  lemma {:induction false} ReplayAfterHistory(states: seq<seq<WalRecord>>, events: seq<Event>) returns (k: nat)
    requires History(states, events)
    ensures k <= |EverLogged(events)| && states[|events|] == EverLogged(events)[k..]
    ensures AtMost(EverLogged(events)[..k], LargestBound(events))
  {
    hide Logged, AtMost, Happens, WithEvent;
    if events == [] {
      k := 0;
      NoneAtMost();
    } else {
      var n := |events| - 1;
      HistoryPrefix(states, events);
      var j := ReplayAfterHistory(states[..n + 1], events[..n]);
      k := EventKeeps(EverLogged(events[..n]), j, states[n], events[n], states[n + 1], LargestBound(events[..n]));
    }
  }

  lemma NoneAtMost()
    ensures AtMost([], 0)
  {
  }

  // One event, seen from everything that was ever logged.
  lemma EventKeeps(ever: seq<WalRecord>, j: nat, c: seq<WalRecord>, e: Event, c': seq<WalRecord>, bound: nat)
    returns (k: nat)
    requires j <= |ever| && c == ever[j..] && Happens(c, e, c') && AtMost(ever[..j], bound)
    ensures var ever' := WithEvent(ever, e);
      && k <= |ever'| && c' == ever'[k..]
      && AtMost(ever'[..k], if e.Reclaimed? && e.upto > bound then e.upto else bound)
  {
    hide Logged, AtMost;
    k := if e.Reclaimed? then j + e.k else j;
    var ever' := WithEvent(ever, e);
    if e.Reclaimed? {
      var most := if e.upto > bound then e.upto else bound;
      assert ever'[..k] == ever[..j] + c[..e.k];
      BoundBelow(ever[..j], bound, most);
      BoundBelow(c[..e.k], e.upto, most);
      BoundConcat(ever[..j], c[..e.k], most);
    } else {
      assert ever'[..k] == ever[..j];
    }
  }

  // A record that a crash lost was beyond what was stable then; so whatever was stable at
  // each crash is still among what counts as logged.
  lemma {:induction false} StableIsLogged(states: seq<seq<WalRecord>>, events: seq<Event>, i: nat, r: WalRecord)
    requires History(states, events) && i <= |events| && r in EverLogged(events[..i])
    requires forall m :: i <= m < |events| && events[m].Lost? ==> r.lsn <= events[m].stable
    ensures r in EverLogged(events)
    decreases |events|
  {
    hide Logged, History, Happens, EverLogged, WithEvent, LargestBound, AtMost;
    if i == |events| {
      assert events[..i] == events;
    } else {
      var n := |events| - 1;
      HistoryPrefix(states, events);
      assert events[..n][..i] == events[..i];
      StableIsLogged(states[..n + 1], events[..n], i, r);
      var k := ReplayAfterHistory(states[..n + 1], events[..n]);
      LossSpares(EverLogged(events[..n]), k, states[n], events[n], states[n + 1], r);
    }
  }

  lemma LossSpares(ever: seq<WalRecord>, j: nat, c: seq<WalRecord>, e: Event, c': seq<WalRecord>, r: WalRecord)
    requires j <= |ever| && c == ever[j..] && Happens(c, e, c') && r in ever
    requires e.Lost? ==> r.lsn <= e.stable
    ensures r in WithEvent(ever, e)
  {
    var i :| 0 <= i < |ever| && ever[i] == r;
    if e.Lost? {
      forall m | |ever| - e.n <= m < |ever| ensures ever[m].lsn > e.stable { assert ever[m] == c[m - j]; }
      assert WithEvent(ever, e)[i] == r;
    } else if e.Appended? {
      assert WithEvent(ever, e)[i] == r;
    }
  }
}
