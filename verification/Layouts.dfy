/** Where the fields of a log record, of a log header and of a snapshot's head stand, byte by
    byte. */
module Layouts {
  import opened Basics
  import opened WalRecords
  import opened Crc32c
  import opened WalCodec
  import L = WalScan
  import S = SnapshotCodec

  function Power256(i: nat): (p: nat)
    ensures p > 0
  {
    if i == 0 then 1 else 256 * Power256(i - 1)
  }

  // The n bytes from `at` are a number, its low byte first.
  ghost predicate Number(s: Bytes, at: nat, n: nat, v: nat) {
    at + n <= |s| && forall i :: 0 <= i < n ==> s[at + i] == (v / Power256(i)) % 256
  }

  ghost predicate Holds(s: Bytes, at: nat, part: Bytes) { at + |part| <= |s| && s[at..at + |part|] == part }

  // ----- what an attribute takes -----

  function AttrSize(a: AttrValue): nat {
    match a
    case Null => 1
    case Tag(text) => 5 + |text|
    case Text(text) => 5 + |text|
    case _ => 9
  }

  function AttrsSize(attrs: seq<AttrValue>): nat {
    if attrs == [] then 0 else AttrsSize(attrs[..|attrs| - 1]) + AttrSize(attrs[|attrs| - 1])
  }

  // A type byte, then a number of 64 bits, or a length and the bytes of a string.
  ghost predicate AttrAt(s: Bytes, at: nat, a: AttrValue) {
    at < |s| &&
    match a
    case Null => s[at] == 0
    case Int64(raw) => s[at] == 1 && Number(s, at + 1, 8, raw)
    case Float64(raw) => s[at] == 2 && Number(s, at + 1, 8, raw)
    case Bool(raw) => s[at] == 3 && Number(s, at + 1, 8, raw)
    case Tag(text) => s[at] == 4 && Number(s, at + 1, 4, |text|) && Holds(s, at + 5, text)
    case Text(text) => s[at] == 5 && Number(s, at + 1, 4, |text|) && Holds(s, at + 5, text)
  }

  ghost predicate AttrsAt(s: Bytes, at: nat, attrs: seq<AttrValue>) {
    forall i :: 0 <= i < |attrs| ==> AttrAt(s, at + AttrsSize(attrs[..i]), attrs[i])
  }

  // A count of attributes, the attributes one after the other, the length of the payload and
  // the payload, which ends at `end`.
  ghost predicate MetaAt(s: Bytes, at: nat, m: Record, end: nat) {
    var tail := at + 4 + AttrsSize(m.attrs);
    && Number(s, at, 4, |m.attrs|)
    && AttrsAt(s, at + 4, m.attrs)
    && Number(s, tail, 4, |m.payload|) && Holds(s, tail + 4, m.payload) && end == tail + 4 + |m.payload|
  }

  // A count and the components, four bytes each.
  ghost predicate VectorAt(s: Bytes, at: nat, vec: seq<Word>) {
    Number(s, at, 4, |vec|) && forall i :: 0 <= i < |vec| ==> Number(s, at + 4 + 4 * i, 4, vec[i])
  }

  // ----- numbers as they are put -----

  lemma PowersOf256()
    ensures Power256(0) == 1 && Power256(1) == 0x100 && Power256(2) == 0x1_0000 && Power256(3) == 0x100_0000
    ensures Power256(4) == 0x1_0000_0000 && Power256(5) == 0x100_0000_0000
    ensures Power256(6) == 0x1_0000_0000_0000 && Power256(7) == 0x100_0000_0000_0000
  {
    assert Power256(2) == 256 * Power256(1) && Power256(3) == 256 * Power256(2);
    assert Power256(4) == 256 * Power256(3) && Power256(5) == 256 * Power256(4);
    assert Power256(6) == 256 * Power256(5) && Power256(7) == 256 * Power256(6);
  }

  lemma Put2Bytes(h: HalfWord)
    ensures Number(Put2(h), 0, 2, h)
  {
    PowersOf256();
  }

  lemma Put4Bytes(w: Word)
    ensures Number(Put4(w), 0, 4, w)
  {
    PowersOf256();
    var s := Put4(w);
    assert s[0] == w % 0x1_0000 % 256 && s[1] == w % 0x1_0000 / 256;
    assert s[2] == w / 0x1_0000 % 256 && s[3] == w / 0x1_0000 / 256;
    Low2(w);
    High2(w);
  }

  lemma Low2(w: Word)
    ensures w % 0x1_0000 % 256 == w % 256 && w % 0x1_0000 / 256 == (w / 256) % 256
  {
  }

  lemma High2(w: Word)
    ensures w / 0x1_0000 / 256 == (w / 0x100_0000) % 256
  {
  }

  lemma Put8Bytes(v: Long)
    ensures Number(Put8(v), 0, 8, v)
  {
    hide Put4;
    PowersOf256();
    var low, high := v % WORD_LIMIT, v / WORD_LIMIT;
    Put4Bytes(low);
    Put4Bytes(high);
    forall i | 0 <= i < 8 ensures Put8(v)[i] == (v / Power256(i)) % 256 {
      if i < 4 {
        assert Put8(v)[i] == Put4(low)[i];
        LowHalf(v, i);
      } else {
        assert Put8(v)[i] == Put4(high)[i - 4];
        HighHalf(v, i);
      }
    }
  }

  lemma LowHalf(v: Long, i: nat)
    requires i < 4
    ensures (v % WORD_LIMIT / Power256(i)) % 256 == (v / Power256(i)) % 256
  {
    PowersOf256();
    var low, high := v % WORD_LIMIT, v / WORD_LIMIT;
    assert v == low + 0x1_0000_0000 * high;
    if i == 0 {
      Multiples256(low, 0x100_0000 * high);
    } else if i == 1 {
      Above1(low, high);
      Multiples256(low / 0x100, 0x1_0000 * high);
    } else if i == 2 {
      Above2(low, high);
      Multiples256(low / 0x1_0000, 0x100 * high);
    } else {
      Above3(low, high);
      Multiples256(low / 0x100_0000, high);
    }
  }

  lemma Multiples256(low: nat, high: nat)
    ensures (low + 256 * high) % 256 == low % 256
  {
  }

  lemma Above1(low: nat, high: nat)
    ensures (low + 0x1_0000_0000 * high) / 0x100 == low / 0x100 + 0x100_0000 * high
  {
  }

  lemma Above2(low: nat, high: nat)
    ensures (low + 0x1_0000_0000 * high) / 0x1_0000 == low / 0x1_0000 + 0x1_0000 * high
  {
  }

  lemma Above3(low: nat, high: nat)
    ensures (low + 0x1_0000_0000 * high) / 0x100_0000 == low / 0x100_0000 + 0x100 * high
  {
  }

  lemma HighHalf(v: Long, i: nat)
    requires 4 <= i < 8
    ensures (v / WORD_LIMIT / Power256(i - 4)) % 256 == (v / Power256(i)) % 256
  {
    PowersOf256();
  }

  // ----- parts of a whole -----

  // A number stays one within a longer string.
  lemma NumberIn(a: Bytes, part: Bytes, b: Bytes, n: nat, v: nat)
    requires Number(part, 0, n, v)
    ensures Number(a + part + b, |a|, n, v)
  {
    var s := a + part + b;
    forall i | 0 <= i < n ensures s[|a| + i] == (v / Power256(i)) % 256 {
      assert s[|a| + i] == part[0 + i];
    }
  }

  lemma HoldsIn(a: Bytes, part: Bytes, b: Bytes)
    ensures Holds(a + part + b, |a|, part)
  {
  }

  lemma WordIn(a: Bytes, w: Word, b: Bytes)
    ensures Number(a + Put4(w) + b, |a|, 4, w)
  {
    Put4Bytes(w);
    NumberIn(a, Put4(w), b, 4, w);
  }

  lemma LongIn(a: Bytes, v: Long, b: Bytes)
    ensures Number(a + Put8(v) + b, |a|, 8, v)
  {
    Put8Bytes(v);
    NumberIn(a, Put8(v), b, 8, v);
  }

  lemma TextIn(a: Bytes, text: Bytes, b: Bytes)
    requires |text| < WORD_LIMIT
    ensures var s := a + PutText(text) + b; Number(s, |a|, 4, |text|) && Holds(s, |a| + 4, text)
  {
    hide Put4;
    var s := a + PutText(text) + b;
    assert s == a + Put4(|text|) + (text + b) && s == (a + Put4(|text|)) + text + b;
    WordIn(a, |text|, text + b);
    HoldsIn(a + Put4(|text|), text, b);
  }

  lemma AttrIn(a: Bytes, v: AttrValue, b: Bytes)
    requires AttrFits(v)
    ensures |PutAttr(v)| == AttrSize(v) && AttrAt(a + PutAttr(v) + b, |a|, v)
  {
    hide Number, Holds, Put8, PutText;
    var s := a + PutAttr(v) + b;
    match v
    case Null =>
    case Int64(raw) => RawIn(a, 1, raw, b);
    case Float64(raw) => RawIn(a, 2, raw, b);
    case Bool(raw) => RawIn(a, 3, raw, b);
    case Tag(text) => StringIn(a, 4, text, b);
    case Text(text) => StringIn(a, 5, text, b);
  }

  lemma RawIn(a: Bytes, kind: Byte, raw: Long, b: Bytes)
    ensures var s := a + ([kind] + Put8(raw)) + b; s[|a|] == kind && Number(s, |a| + 1, 8, raw)
  {
    hide Number, Put8;
    var s := a + ([kind] + Put8(raw)) + b;
    assert s == (a + [kind]) + Put8(raw) + b;
    LongIn(a + [kind], raw, b);
  }

  lemma StringIn(a: Bytes, kind: Byte, text: Bytes, b: Bytes)
    requires |text| < WORD_LIMIT
    ensures |PutText(text)| == 4 + |text|
    ensures var s := a + ([kind] + PutText(text)) + b;
      s[|a|] == kind && Number(s, |a| + 1, 4, |text|) && Holds(s, |a| + 5, text)
  {
    assert |PutText(text)| == 4 + |text|;
    hide Number, Holds, PutText;
    var s := a + ([kind] + PutText(text)) + b;
    assert s == (a + [kind]) + PutText(text) + b;
    TextIn(a + [kind], text, b);
  }

  lemma {:induction false} AttrsIn(a: Bytes, attrs: seq<AttrValue>, b: Bytes)
    requires forall i :: 0 <= i < |attrs| ==> AttrFits(attrs[i])
    ensures |PutAttrs(attrs)| == AttrsSize(attrs) && AttrsAt(a + PutAttrs(attrs) + b, |a|, attrs)
  {
    hide AttrAt, PutAttr, AttrSize, AttrsAt;
    if attrs == [] {
      NoneAt(a + PutAttrs(attrs) + b, |a|);
    } else {
      var rest, last := attrs[..|attrs| - 1], attrs[|attrs| - 1];
      var x, y := PutAttrs(rest), PutAttr(last);
      AttrsIn(a, rest, y + b);
      AttrIn(a + x, last, b);
      assert a + (x + y) + b == a + x + (y + b) && a + (x + y) + b == (a + x) + y + b;
      OneMoreAt(a + (x + y) + b, |a|, attrs);
    }
  }

  lemma NoneAt(s: Bytes, at: nat)
    ensures AttrsAt(s, at, [])
  {
  }

  lemma OneMoreAt(s: Bytes, at: nat, attrs: seq<AttrValue>)
    requires attrs != []
    requires var rest := attrs[..|attrs| - 1];
      AttrsAt(s, at, rest) && AttrAt(s, at + AttrsSize(rest), attrs[|attrs| - 1])
    ensures AttrsAt(s, at, attrs)
  {
    hide AttrAt, AttrsSize;
    var rest := attrs[..|attrs| - 1];
    forall i | 0 <= i < |attrs| ensures AttrAt(s, at + AttrsSize(attrs[..i]), attrs[i]) {
      if i < |rest| { assert rest[..i] == attrs[..i] && rest[i] == attrs[i]; }
    }
  }

  lemma MetaIn(a: Bytes, m: Record, b: Bytes)
    requires MetaFits(m)
    ensures MetaAt(a + PutMeta(m) + b, |a|, m, |a| + |PutMeta(m)|)
  {
    hide Number, Holds, AttrsAt, Put4, PutAttrs, PutText;
    var s, count, attrs, text := a + PutMeta(m) + b, Put4(|m.attrs|), PutAttrs(m.attrs), PutText(m.payload);
    assert s == a + count + (attrs + text + b);
    WordIn(a, |m.attrs|, attrs + text + b);
    assert s == (a + count) + attrs + (text + b);
    AttrsIn(a + count, m.attrs, text + b);
    assert s == (a + count + attrs) + text + b;
    TextIn(a + count + attrs, m.payload, b);
    TextLength(m.payload);
  }

  lemma TextLength(text: Bytes)
    requires |text| < WORD_LIMIT
    ensures |PutText(text)| == 4 + |text|
  {
  }

  lemma {:induction false} WordsIn(a: Bytes, vec: seq<Word>, b: Bytes)
    ensures |PutWords(vec)| == 4 * |vec|
    ensures forall i :: 0 <= i < |vec| ==> Number(a + PutWords(vec) + b, |a| + 4 * i, 4, vec[i])
  {
    hide Number, Put4;
    if vec != [] {
      var n := |vec| - 1;
      var rest, last := vec[..n], vec[n];
      var s := a + PutWords(vec) + b;
      assert s == a + PutWords(rest) + (Put4(last) + b) && s == (a + PutWords(rest)) + Put4(last) + b;
      WordsIn(a, rest, Put4(last) + b);
      WordIn(a + PutWords(rest), last, b);
    }
  }

  lemma VectorIn(a: Bytes, vec: seq<Word>, b: Bytes)
    requires |vec| < WORD_LIMIT
    ensures |PutVector(vec)| == 4 + 4 * |vec| && VectorAt(a + PutVector(vec) + b, |a|, vec)
  {
    hide Number, Put4, PutWords;
    var s, count, words := a + PutVector(vec) + b, Put4(|vec|), PutWords(vec);
    assert s == a + count + (words + b) && s == (a + count) + words + b;
    WordIn(a, |vec|, words + b);
    WordsIn(a + count, vec, b);
  }

  // ----- a record in the log -----

  // The parts that the kinds carry: 1, 3 and 5 are insert, update and a change of metadata.
  ghost predicate PartsAt(f: Bytes, r: WalRecord) {
    var at := if r.kind == 1 || r.kind == 3 then 29 + 4 * |r.vec| else 25;
    && (r.kind == 1 || r.kind == 3 ==> VectorAt(f, 25, r.vec))
    && if r.kind == 1 || r.kind == 3 || r.kind == 5 then MetaAt(f, at, r.meta, |f|) else |f| == at
  }

  /** A frame: the length of what follows the first eight bytes; the checksum of that length and
      of what follows; the kind; the lsn; the id; and the parts that the kind carries. */
  lemma FrameLayout(r: WalRecord)
    requires Fits(r)
    ensures var f := Frame(r);
      && |f| >= 25 && Number(f, 0, 4, |f| - 8) && Number(f, 4, 4, CrcWord(f[..4] + f[8..]))
      && f[8] == r.kind && Number(f, 9, 8, r.lsn) && Number(f, 17, 8, r.extId) && PartsAt(f, r)
  {
    hide Number, Put4, PutVector, PutMeta, CrcWord, PartsAt, Body;
    var f, length, body := Frame(r), Put4(|Body(r)|), Body(r);
    var crc := CrcWord(length + body);
    WordIn([], |body|, Put4(crc) + body);
    assert f == [] + length + (Put4(crc) + body);
    WordIn(length, crc, body);
    assert f[..4] == length && f[8..] == body;
    BodyIn(length + Put4(crc), r);
  }

  lemma BodyIn(head: Bytes, r: WalRecord)
    requires |head| == 8 && PartsFit(r)
    ensures var f := head + Body(r);
      && |f| >= 25 && f[8] == r.kind && Number(f, 9, 8, r.lsn) && Number(f, 17, 8, r.extId) && PartsAt(f, r)
  {
    hide Number, Put8, PutVector, PutMeta, VectorAt, MetaAt;
    var kind, lsn, extId := [r.kind], Put8(r.lsn), Put8(r.extId);
    var vec := if CarriesVector(r.kind) then PutVector(r.vec) else [];
    var meta := if CarriesMeta(r.kind) then PutMeta(r.meta) else [];
    var f := head + (kind + lsn + extId + vec + meta);
    assert f == head + Body(r);
    assert f == (head + kind) + lsn + (extId + vec + meta);
    LongIn(head + kind, r.lsn, extId + vec + meta);
    assert f == (head + kind + lsn) + extId + (vec + meta);
    LongIn(head + kind + lsn, r.extId, vec + meta);
    PartsIn(head + kind + lsn + extId, r, vec, meta);
    assert f == (head + kind + lsn + extId) + vec + meta;
  }

  lemma PartsIn(fixed: Bytes, r: WalRecord, vec: Bytes, meta: Bytes)
    requires |fixed| == 25 && PartsFit(r)
    requires vec == if CarriesVector(r.kind) then PutVector(r.vec) else []
    requires meta == if CarriesMeta(r.kind) then PutMeta(r.meta) else []
    ensures PartsAt(fixed + vec + meta, r)
  {
    hide Number, PutVector, PutMeta, VectorAt, MetaAt;
    if CarriesVector(r.kind) { VectorIn(fixed, r.vec, meta); }
    if CarriesMeta(r.kind) {
      MetaIn(fixed + vec, r.meta, []);
      assert fixed + vec + meta == (fixed + vec) + meta + [];
    }
  }

  // The kinds by their bytes; a removal and a checkpoint's mark are 25 bytes long.
  lemma KindBytes(r: WalRecord)
    requires Fits(r)
    ensures var f := Frame(r);
      && |f| >= 25
      && (r.kind == INSERT ==> f[8] == 1) && (r.kind == DELETE ==> f[8] == 2 && |f| == 25)
      && (r.kind == UPDATE ==> f[8] == 3) && (r.kind == CHECKPOINT ==> f[8] == 4 && |f| == 25)
      && (r.kind == SET_META ==> f[8] == 5)
  {
    hide Number;
    FrameLayout(r);
  }

  // ----- the header of a log segment -----

  // 32 bytes: the magic number, version 2, dimension, metric, fingerprint, and zeros.
  lemma HeaderLayout(h: L.Header)
    ensures var s := L.PutHeader(h);
      && |s| == 32 && Number(s, 0, 4, 0x5644_4257) && Number(s, 4, 2, 2) && Number(s, 6, 4, h.dim)
      && s[10] == h.metric && Number(s, 11, 8, h.schemaFp) && forall i :: 19 <= i < 32 ==> s[i] == 0
  {
    hide Number, Put2, Put4, Put8;
    var magic, version, dim, fp, rest := Put4(L.MAGIC), Put2(L.VERSION), Put4(h.dim), Put8(h.schemaFp), L.Zeros(13);
    var s := L.PutHeader(h);
    assert s == [] + magic + (version + dim + [h.metric] + fp + rest);
    WordIn([], L.MAGIC, version + dim + [h.metric] + fp + rest);
    assert s == magic + version + (dim + [h.metric] + fp + rest);
    HalfIn(magic, L.VERSION, dim + [h.metric] + fp + rest);
    assert s == (magic + version) + dim + ([h.metric] + fp + rest);
    WordIn(magic + version, h.dim, [h.metric] + fp + rest);
    assert s == (magic + version + dim + [h.metric]) + fp + rest;
    LongIn(magic + version + dim + [h.metric], h.schemaFp, rest);
  }

  lemma HalfIn(a: Bytes, h: HalfWord, b: Bytes)
    ensures Number(a + Put2(h) + b, |a|, 2, h)
  {
    Put2Bytes(h);
    NumberIn(a, Put2(h), b, 2, h);
  }

  // ----- a snapshot -----

  // The head, up to the counts, is 43 bytes long.
  lemma SnapshotHead(h: S.Head, t: Bytes)
    ensures |S.PutHead(h)| == 43
    ensures var s := S.PutHead(h) + t;
      && Number(s, 0, 4, 0x5644_4253) && Number(s, 4, 2, 2) && Number(s, 6, 4, h.dim) && s[10] == h.metric
      && Number(s, 11, 8, h.lsn) && Number(s, 19, 8, h.nextExt)
      && Number(s, 27, 8, h.liveCount) && Number(s, 35, 8, h.deletedCount)
  {
    hide Number, Put2, Put4, Put8;
    var magic, version, dim := Put4(S.MAGIC), Put2(S.VERSION), Put4(h.dim);
    var lsn, next, live, dead := Put8(h.lsn), Put8(h.nextExt), Put8(h.liveCount), Put8(h.deletedCount);
    var s := S.PutHead(h) + t;
    var config, four := dim + [h.metric], lsn + next + live + dead + t;
    assert s == [] + magic + (version + config + four);
    WordIn([], S.MAGIC, version + config + four);
    assert s == magic + version + (config + four);
    HalfIn(magic, S.VERSION, config + four);
    assert s == (magic + version) + dim + ([h.metric] + four);
    WordIn(magic + version, h.dim, [h.metric] + four);
    var front := magic + version + config;
    assert s == front + lsn + (next + live + dead + t);
    LongIn(front, h.lsn, next + live + dead + t);
    assert s == (front + lsn) + next + (live + dead + t);
    LongIn(front + lsn, h.nextExt, live + dead + t);
    assert s == (front + lsn + next) + live + (dead + t);
    LongIn(front + lsn + next, h.liveCount, dead + t);
    assert s == (front + lsn + next + live) + dead + t;
    LongIn(front + lsn + next + live, h.deletedCount, t);
  }

  lemma {:induction false} LongsIn(a: Bytes, xs: seq<Long>, b: Bytes)
    ensures |S.PutMany(Put8, xs)| == 8 * |xs|
    ensures forall i :: 0 <= i < |xs| ==> Number(a + S.PutMany(Put8, xs) + b, |a| + 8 * i, 8, xs[i])
  {
    hide Number, Put8;
    if xs != [] {
      var rest, last := xs[..|xs| - 1], xs[|xs| - 1];
      var x, y := S.PutMany(Put8, rest), Put8(last);
      LongsIn(a, rest, y + b);
      LongIn(a + x, last, b);
      assert a + (x + y) + b == a + x + (y + b) && a + (x + y) + b == (a + x) + y + b;
    }
  }

  lemma {:induction false} FlagBytes(xs: seq<bool>)
    ensures var s := S.PutMany(S.PutFlag, xs);
      |s| == |xs| && forall i :: 0 <= i < |xs| ==> s[i] == if xs[i] then 1 else 0
  {
    if xs != [] { FlagBytes(xs[..|xs| - 1]); }
  }

  // A count of ids and the ids, eight bytes each, then a count of flags and the flags, one byte
  // each, then another count.
  ghost predicate RowsAt(s: Bytes, at: nat, ids: seq<Long>, flags: seq<bool>, count: nat) {
    var mid := at + 8 + 8 * |ids|;
    && Number(s, at, 8, |ids|) && (forall k :: 0 <= k < |ids| ==> Number(s, at + 8 + 8 * k, 8, ids[k]))
    && Number(s, mid, 8, |flags|) && mid + 8 + |flags| <= |s|
    && (forall k :: 0 <= k < |flags| ==> s[mid + 8 + k] == if flags[k] then 1 else 0)
    && Number(s, mid + 8 + |flags|, 8, count)
  }

  lemma RowsIn(head: Bytes, ids: seq<Long>, flags: seq<bool>, count: Long, tail: Bytes)
    requires |ids| < LONG_LIMIT && |flags| < LONG_LIMIT
    ensures var s := head + S.PutLongs(ids) + S.PutFlags(flags) + (Put8(count) + tail);
      RowsAt(s, |head|, ids, flags, count)
  {
    hide Number, Put8;
    var a, b, c, d := Put8(|ids|), S.PutMany(Put8, ids), Put8(|flags|), S.PutMany(S.PutFlag, flags);
    var rest := Put8(count) + tail;
    var s := head + (a + b) + (c + d) + rest;
    assert s == head + a + (b + c + d + rest);
    LongIn(head, |ids|, b + c + d + rest);
    assert s == (head + a) + b + (c + d + rest);
    LongsIn(head + a, ids, c + d + rest);
    assert s == (head + a + b) + c + (d + rest);
    LongIn(head + a + b, |flags|, d + rest);
    FlagsIn(head + a + b + c, flags, rest);
    assert s == (head + a + b + c) + d + rest;
    assert s == (head + a + b + c + d) + Put8(count) + tail;
    LongIn(head + a + b + c + d, count, tail);
  }

  lemma FlagsIn(a: Bytes, flags: seq<bool>, b: Bytes)
    ensures var part := S.PutMany(S.PutFlag, flags); var s := a + part + b;
      |part| == |flags| && forall k :: 0 <= k < |flags| ==> s[|a| + k] == if flags[k] then 1 else 0
  {
    FlagBytes(flags);
    var part := S.PutMany(S.PutFlag, flags);
    forall k | 0 <= k < |flags| ensures (a + part + b)[|a| + k] == part[k] {}
  }

  /** Behind the head: the number of rows and their ids, then as many flags, one byte each, 1
      for a tombstone, then the number of vectors. */
  lemma SnapshotRows(i: S.Image)
    requires |i.rows.intToExt| < LONG_LIMIT && |i.rows.deleted| < LONG_LIMIT && |i.rows.vectors| < LONG_LIMIT
    ensures RowsAt(S.Save(i), 43, i.rows.intToExt, i.rows.deleted, |i.rows.vectors|)
  {
    hide RowsAt, Put8, S.PutHead, S.PutMetaImage, S.PutIndex, S.PutLongs, S.PutFlags;
    var head, ids, flags, n := S.PutHead(i.head), i.rows.intToExt, i.rows.deleted, Put8(|i.rows.vectors|);
    var words := S.PutMany(S.PutFloats, i.rows.vectors);
    var tail := words + (S.PutMetaImage(i.meta) + S.PutIndex(i.index));
    SnapshotHead(i.head, []);
    RowsIn(head, ids, flags, |i.rows.vectors|, tail);
    assert S.Save(i) == head + S.PutLongs(ids) + S.PutFlags(flags) + (n + tail);
  }
}
