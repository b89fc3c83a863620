/** Reading a whole log file: torn tails, changed bytes, and the file header. */
module WalScan {
  import opened Basics
  import opened WalRecords
  import opened Crc32c
  import opened WalCodec

  // ----- scanning -----

  // The records up to the first frame that does not decode, the bytes they take, and why
  // the scan stopped, if before the end.
  datatype Scanned = Scanned(recs: seq<WalRecord>, used: nat, stop: Option<Decoded>)

  function Scan(s: Bytes): Scanned
    decreases |s|
  {
    if s == [] then Scanned([], 0, None)
    else match Decode(s)
      case Ok(rec, consumed) =>
        if 0 < consumed <= |s| then
          var rest := Scan(s[consumed..]);
          Scanned([rec] + rest.recs, consumed + rest.used, rest.stop)
        else Scanned([], 0, Some(BadCrc))
      case d => Scanned([], 0, Some(d))
  }

  // A decoded frame lies within the bytes given.
  lemma DecodeWithin(s: Bytes)
    requires Decode(s).Ok?
    ensures 0 < Decode(s).consumed <= |s|
  {
  }

  ghost predicate AllFit(rs: seq<WalRecord>) { forall i :: 0 <= i < |rs| ==> Fits(rs[i]) }

  function Frames(rs: seq<WalRecord>): Bytes
    requires forall i :: 0 <= i < |rs| ==> Fits(rs[i])
  {
    if rs == [] then [] else Frame(rs[0]) + Frames(rs[1..])
  }

  function LoggedAll(rs: seq<WalRecord>): seq<WalRecord> {
    seq(|rs|, i requires 0 <= i < |rs| => Logged(rs[i]))
  }

  lemma {:induction false} FramesConcat(a: seq<WalRecord>, b: seq<WalRecord>)
    requires AllFit(a) && AllFit(b)
    ensures AllFit(a + b) && Frames(a + b) == Frames(a) + Frames(b)
  {
    hide Frame, Fits;
    if a == [] {
      assert a + b == b;
    } else {
      assert (a + b)[0] == a[0] && (a + b)[1..] == a[1..] + b;
      FramesConcat(a[1..], b);
      assert Frames(a + b) == Frame(a[0]) + (Frames(a[1..]) + Frames(b));
    }
  }

  // Frames are read back one after the other, whatever follows them.
  lemma {:induction false} ScanFrames(rs: seq<WalRecord>, t: Bytes)
    requires AllFit(rs)
    ensures var rest := Scan(t);
      Scan(Frames(rs) + t) == Scanned(LoggedAll(rs) + rest.recs, |Frames(rs)| + rest.used, rest.stop)
  {
    hide Frame, Fits, Decode, Logged;
    if rs == [] {
      assert Frames(rs) + t == t;
      assert LoggedAll(rs) == [];
    } else {
      var s, more := Frames(rs) + t, Frames(rs[1..]) + t;
      assert s == Frame(rs[0]) + more;
      DecodeFrame(rs[0], more);
      DecodeWithin(s);
      assert s[|Frame(rs[0])|..] == more;
      ScanFrames(rs[1..], t);
      assert LoggedAll(rs) == [Logged(rs[0])] + LoggedAll(rs[1..]);
    }
  }

  // A log cut at any byte: exactly the records whose frames are complete come back, and
  // the scan stops as incomplete where the cut frame begins.
  lemma {:induction false} ScanCut(rs: seq<WalRecord>, n: nat) returns (k: nat)
    requires AllFit(rs) && n <= |Frames(rs)|
    ensures k <= |rs| && |Frames(rs[..k])| <= n && (k < |rs| ==> n < |Frames(rs[..k + 1])|)
    ensures Scan(Frames(rs)[..n]) ==
      Scanned(LoggedAll(rs[..k]), |Frames(rs[..k])|, if n == |Frames(rs[..k])| then None else Some(Incomplete))
  {
    hide Frame, Fits, Decode, Logged, Scan, LoggedAll;
    k := CutAt(rs, n);
    var whole := Frames(rs[..k]);
    assert rs == rs[..k] + rs[k..];
    FramesConcat(rs[..k], rs[k..]);
    var t := Frames(rs)[|whole|..n];
    assert Frames(rs)[..n] == whole + t;
    ScanFrames(rs[..k], t);
    if t == [] {
      ScanNothing(LoggedAll(rs[..k]));
    } else {
      TornFrame(rs, k, n);
      ScanTorn(t, LoggedAll(rs[..k]));
    }
  }

  lemma ScanNothing(recs: seq<WalRecord>)
    ensures Scan([]) == Scanned([], 0, None) && recs + [] == recs
  {
  }

  lemma ScanTorn(t: Bytes, recs: seq<WalRecord>)
    requires t != [] && Decode(t) == Incomplete
    ensures Scan(t) == Scanned([], 0, Some(Incomplete)) && recs + [] == recs
  {
  }

  lemma {:induction false} CutAt(rs: seq<WalRecord>, n: nat) returns (k: nat)
    requires AllFit(rs) && n <= |Frames(rs)|
    ensures k <= |rs| && |Frames(rs[..k])| <= n && (k < |rs| ==> n < |Frames(rs[..k + 1])|)
  {
    hide Frame, Fits;
    if rs == [] || n < |Frame(rs[0])| {
      k := 0;
      if rs != [] { assert rs[..1] == [rs[0]] && Frames([rs[0]]) == Frame(rs[0]) + Frames([]); }
    } else {
      var j := CutAt(rs[1..], n - |Frame(rs[0])|);
      k := j + 1;
      assert rs[..k][0] == rs[0] && rs[..k][1..] == rs[1..][..j];
      if k < |rs| { assert rs[..k + 1][0] == rs[0] && rs[..k + 1][1..] == rs[1..][..j + 1]; }
    }
  }

  lemma TornFrame(rs: seq<WalRecord>, k: nat, n: nat)
    requires AllFit(rs) && k <= |rs| && |Frames(rs[..k])| < n <= |Frames(rs)|
    requires k < |rs| ==> n < |Frames(rs[..k + 1])|
    ensures Decode(Frames(rs)[|Frames(rs[..k])|..n]) == Incomplete
  {
    hide Frame, Fits, Decode, Frames;
    assert rs[..|rs|] == rs;
    FramesAround(rs, k);
    var a, r := Frames(rs[..k]), rs[k];
    var m := n - |a|;
    MiddleCut(a, Frame(r), Frames(rs[k + 1..]), m);
    assert Frames(rs)[|a|..n] == Frame(r)[..m];
    DecodeCut(r, m);
  }

  // The frames before, the frame of record k, and the frames after.
  lemma FramesAround(rs: seq<WalRecord>, k: nat)
    requires AllFit(rs) && k < |rs|
    ensures Frames(rs) == Frames(rs[..k]) + Frame(rs[k]) + Frames(rs[k + 1..])
    ensures |Frames(rs[..k + 1])| == |Frames(rs[..k])| + |Frame(rs[k])|
  {
    hide Frame, Fits;
    var r := rs[k];
    assert rs == rs[..k] + rs[k..] && rs[k..][0] == r && rs[k..][1..] == rs[k + 1..];
    FramesConcat(rs[..k], rs[k..]);
    assert rs[..k + 1] == rs[..k] + [r];
    FramesConcat(rs[..k], [r]);
    assert Frames([r]) == Frame(r) + Frames([]);
  }

  lemma MiddleCut(a: Bytes, b: Bytes, c: Bytes, m: nat)
    requires m <= |b|
    ensures (a + b + c)[|a|..|a| + m] == b[..m]
  {
  }

  // ----- changed bytes -----

  // The frame of r with another checksum and body of the same length.
  lemma DecodeChanged(r: WalRecord, crc: Word, body: Bytes, t: Bytes)
    requires Fits(r) && |body| == |Body(r)| && CrcWord(Put4(|body|) + body) != crc
    ensures Decode(Put4(|body|) + Put4(crc) + body + t) == BadCrc
  {
    hide Put4, Get4, ReadBody, Body, CrcWord;
    var length := Put4(|body|);
    var s := length + Put4(crc) + body + t;
    assert s == length + (Put4(crc) + (body + t));
    GetPut4(|body|, Put4(crc) + (body + t));
    assert s[4..] == Put4(crc) + (body + t);
    GetPut4(crc, body + t);
    assert s[..4] == length && s[8..8 + |body|] == body;
  }

  // Any change to one byte of a frame's body is found, in a frame of any length.
  lemma BodyByteDetected(r: WalRecord, i: nat, b: Byte, t: Bytes)
    requires Fits(r) && 8 <= i < |Frame(r)| && b != Frame(r)[i]
    ensures Decode(Frame(r)[i := b] + t) == BadCrc
  {
    hide Put4, Get4, ReadBody, Body, CrcWord, Decode;
    var body, j := Body(r), i - 8;
    var body' := body[j := b];
    var length := Put4(|body|);
    var pre, post := length + body[..j], body[j + 1..];
    assert length + body == pre + [body[j]] + post;
    assert length + body' == pre + [b] + post;
    OneByteDetected(pre, body[j], b, post);
    DecodeChanged(r, CrcWord(length + body), body', t);
    assert Frame(r)[i := b] == length + Put4(CrcWord(length + body)) + body';
  }

  // So is any change to the stored checksum.
  lemma ChecksumDetected(r: WalRecord, crc: Word, t: Bytes)
    requires Fits(r) && crc != CrcWord(Put4(|Body(r)|) + Body(r))
    ensures Decode(Put4(|Body(r)|) + Put4(crc) + Body(r) + t) == BadCrc
  {
    DecodeChanged(r, crc, Body(r), t);
  }

  // ----- the header of a segment file -----

  const MAGIC: Word := 0x5644_4257
  const VERSION: HalfWord := 2
  const HEADER_SIZE := 32

  datatype Header = Header(dim: Word, metric: Byte, schemaFp: Long)

  function Zeros(n: nat): (z: Bytes)
    ensures |z| == n
  {
    seq(n, _ => 0)
  }

  function PutHeader(h: Header): (b: Bytes)
    ensures |b| == HEADER_SIZE
  {
    Put4(MAGIC) + Put2(VERSION) + Put4(h.dim) + [h.metric] + Put8(h.schemaFp) + Zeros(13)
  }

  function GetHeader(s: Bytes): Option<Header> {
    if |s| < HEADER_SIZE then None
    else
      var h := Header(Get4(s[6..]), s[10], Get8(s[11..]));
      if Get4(s) == MAGIC && Get2(s[4..]) == VERSION then Some(h) else None
  }

  lemma GetPutHeader(h: Header, t: Bytes)
    ensures GetHeader(PutHeader(h) + t) == Some(h)
  {
    hide Put4, Get4, Put2, Get2, Put8, Get8;
    var s := PutHeader(h) + t;
    var tail := Zeros(13) + t;
    assert s == Put4(MAGIC) + (Put2(VERSION) + (Put4(h.dim) + ([h.metric] + (Put8(h.schemaFp) + tail))));
    GetPut4(MAGIC, Put2(VERSION) + (Put4(h.dim) + ([h.metric] + (Put8(h.schemaFp) + tail))));
    assert s[4..] == Put2(VERSION) + (Put4(h.dim) + ([h.metric] + (Put8(h.schemaFp) + tail)));
    GetPut2(VERSION, Put4(h.dim) + ([h.metric] + (Put8(h.schemaFp) + tail)));
    assert s[6..] == Put4(h.dim) + ([h.metric] + (Put8(h.schemaFp) + tail));
    GetPut4(h.dim, [h.metric] + (Put8(h.schemaFp) + tail));
    assert s[11..] == Put8(h.schemaFp) + tail;
    GetPut8(h.schemaFp, tail);
  }
}
