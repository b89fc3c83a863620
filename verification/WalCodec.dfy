/** The log's frames: how a record becomes bytes, how bytes become records again, and what
    happens when the file ends in the middle of a frame. */
module WalCodec {
  import opened Basics
  import opened WalRecords
  import opened Crc32c

  type Bytes = seq<Byte>

  // ----- numbers, little end first -----

  const HALF_LIMIT: int := 0x1_0000
  type HalfWord = h: int | 0 <= h < HALF_LIMIT

  function Put2(h: HalfWord): (b: Bytes)
    ensures |b| == 2
  {
    [h % 256, h / 256]
  }

  function Get2(b: Bytes): HalfWord
    requires |b| >= 2
  {
    var low: int, high: int := b[0], b[1];
    low + 256 * high
  }

  function Put4(w: Word): (b: Bytes)
    ensures |b| == 4
  {
    Put2(w % HALF_LIMIT) + Put2(w / HALF_LIMIT)
  }

  function Get4(b: Bytes): Word
    requires |b| >= 4
  {
    var low: int, high: int := Get2(b), Get2(b[2..]);
    low + HALF_LIMIT * high
  }

  function Put8(v: Long): (b: Bytes)
    ensures |b| == 8
  {
    Put4(v % WORD_LIMIT) + Put4(v / WORD_LIMIT)
  }

  function Get8(b: Bytes): Long
    requires |b| >= 8
  {
    var low: int, high: int := Get4(b), Get4(b[4..]);
    low + WORD_LIMIT * high
  }

  lemma GetPut2(h: HalfWord, t: Bytes)
    ensures Get2(Put2(h) + t) == h
  {
  }

  lemma GetPut4(w: Word, t: Bytes)
    ensures Get4(Put4(w) + t) == w
  {
    hide Put2, Get2;
    assert Put4(w) + t == Put2(w % HALF_LIMIT) + (Put2(w / HALF_LIMIT) + t);
    assert (Put4(w) + t)[2..] == Put2(w / HALF_LIMIT) + t;
    GetPut2(w % HALF_LIMIT, Put2(w / HALF_LIMIT) + t);
    GetPut2(w / HALF_LIMIT, t);
  }

  lemma GetPut8(v: Long, t: Bytes)
    ensures Get8(Put8(v) + t) == v
  {
    hide Put4, Get4;
    assert Put8(v) + t == Put4(v % WORD_LIMIT) + (Put4(v / WORD_LIMIT) + t);
    assert (Put8(v) + t)[4..] == Put4(v / WORD_LIMIT) + t;
    GetPut4(v % WORD_LIMIT, Put4(v / WORD_LIMIT) + t);
    GetPut4(v / WORD_LIMIT, t);
  }

  // ----- encoding -----

  function PutText(text: Bytes): Bytes
    requires |text| < WORD_LIMIT
  {
    Put4(|text|) + text
  }

  // A value in range: its string can be counted in 32 bits.
  predicate AttrFits(a: AttrValue) {
    match a
    case Tag(text) => |text| < WORD_LIMIT
    case Text(text) => |text| < WORD_LIMIT
    case _ => true
  }

  function PutAttr(a: AttrValue): Bytes
    requires AttrFits(a)
  {
    match a
    case Null => [0]
    case Int64(raw) => [1] + Put8(raw)
    case Float64(raw) => [2] + Put8(raw)
    case Bool(raw) => [3] + Put8(raw)
    case Tag(text) => [4] + PutText(text)
    case Text(text) => [5] + PutText(text)
  }

  function PutAttrs(attrs: seq<AttrValue>): Bytes
    requires forall i :: 0 <= i < |attrs| ==> AttrFits(attrs[i])
  {
    if attrs == [] then [] else PutAttrs(attrs[..|attrs| - 1]) + PutAttr(attrs[|attrs| - 1])
  }

  predicate MetaFits(m: Record) {
    && |m.attrs| < WORD_LIMIT && |m.payload| < WORD_LIMIT
    && forall i :: 0 <= i < |m.attrs| ==> AttrFits(m.attrs[i])
  }

  function PutMeta(m: Record): Bytes
    requires MetaFits(m)
  {
    Put4(|m.attrs|) + PutAttrs(m.attrs) + PutText(m.payload)
  }

  function PutWords(vec: seq<Word>): Bytes {
    if vec == [] then [] else PutWords(vec[..|vec| - 1]) + Put4(vec[|vec| - 1])
  }

  function PutVector(vec: seq<Word>): Bytes
    requires |vec| < WORD_LIMIT
  {
    Put4(|vec|) + PutWords(vec)
  }

  // A record in range: every count fits its 32-bit field.
  predicate PartsFit(r: WalRecord) {
    (CarriesVector(r.kind) ==> |r.vec| < WORD_LIMIT) && (CarriesMeta(r.kind) ==> MetaFits(r.meta))
  }

  function Body(r: WalRecord): Bytes
    requires PartsFit(r)
  {
    [r.kind] + Put8(r.lsn) + Put8(r.extId)
    + (if CarriesVector(r.kind) then PutVector(r.vec) else [])
    + (if CarriesMeta(r.kind) then PutMeta(r.meta) else [])
  }

  predicate Fits(r: WalRecord) { PartsFit(r) && |Body(r)| < WORD_LIMIT }

  // The checksum covers the length field and the body.
  function Frame(r: WalRecord): (f: Bytes)
    requires Fits(r)
    ensures |f| == 8 + |Body(r)|
  {
    var length := Put4(|Body(r)|);
    length + Put4(CrcWord(length + Body(r))) + Body(r)
  }

  // ----- decoding -----

  /** What a bounds-checked read gives: a value and the bytes after it, or an overrun. */
  datatype Read<T> = Overrun | Got(value: T, rest: Bytes)

  function Read1(s: Bytes): Read<Byte> {
    if |s| < 1 then Overrun else Got(s[0], s[1..])
  }

  function Read4(s: Bytes): Read<Word> {
    if |s| < 4 then Overrun else Got(Get4(s), s[4..])
  }

  function Read8(s: Bytes): Read<Long> {
    if |s| < 8 then Overrun else Got(Get8(s), s[8..])
  }

  function ReadText(s: Bytes): Read<Bytes> {
    var n := Read4(s);
    if n.Overrun? || |n.rest| < n.value then Overrun else Got(n.rest[..n.value], n.rest[n.value..])
  }

  // Overrun also stands for the exception on a type byte that is none of the six.
  function ReadAttr(s: Bytes): Read<AttrValue> {
    var tag := Read1(s);
    if tag.Overrun? then Overrun
    else if tag.value == 0 then Got(Null, tag.rest)
    else if tag.value <= 3 then
      var raw := Read8(tag.rest);
      if raw.Overrun? then Overrun
      else if tag.value == 1 then Got(Int64(raw.value), raw.rest)
      else if tag.value == 2 then Got(Float64(raw.value), raw.rest)
      else Got(Bool(raw.value), raw.rest)
    else if tag.value <= 5 then
      var text := ReadText(tag.rest);
      if text.Overrun? then Overrun
      else Got(if tag.value == 4 then Tag(text.value) else Text(text.value), text.rest)
    else Overrun
  }

  // n values, one after the other.
  function ReadAttrs(s: Bytes, n: nat): Read<seq<AttrValue>> {
    if n == 0 then Got([], s)
    else
      var first := ReadAttrs(s, n - 1);
      if first.Overrun? then Overrun
      else
        var last := ReadAttr(first.rest);
        if last.Overrun? then Overrun else Got(first.value + [last.value], last.rest)
  }

  function ReadMeta(s: Bytes): Read<Record> {
    var n := Read4(s);
    if n.Overrun? then Overrun
    else
      var attrs := ReadAttrs(n.rest, n.value);
      if attrs.Overrun? then Overrun
      else
        var payload := ReadText(attrs.rest);
        if payload.Overrun? then Overrun else Got(Record(attrs.value, payload.value), payload.rest)
  }

  function ReadWords(s: Bytes, n: nat): Read<seq<Word>> {
    if n == 0 then Got([], s)
    else
      var first := ReadWords(s, n - 1);
      if first.Overrun? then Overrun
      else
        var last := Read4(first.rest);
        if last.Overrun? then Overrun else Got(first.value + [last.value], last.rest)
  }

  function ReadVector(s: Bytes): Read<seq<Word>> {
    var n := Read4(s);
    if n.Overrun? then Overrun else ReadWords(n.rest, n.value)
  }

  // The body of a frame. Bytes left over are not looked at, and neither is the kind.
  function ReadBody(s: Bytes): Read<WalRecord> {
    var kind := Read1(s);
    if kind.Overrun? then Overrun
    else
      var lsn := Read8(kind.rest);
      if lsn.Overrun? then Overrun
      else
        var extId := Read8(lsn.rest);
        if extId.Overrun? then Overrun
        else
          var vec := if CarriesVector(kind.value) then ReadVector(extId.rest) else Got([], extId.rest);
          if vec.Overrun? then Overrun
          else
            var meta := if CarriesMeta(kind.value) then ReadMeta(vec.rest) else Got(NO_META, vec.rest);
            if meta.Overrun? then Overrun
            else Got(WalRecord(kind.value, lsn.value, extId.value, vec.value, meta.value), meta.rest)
  }

  const BODY_PREFIX := 17

  datatype Decoded = Ok(rec: WalRecord, consumed: nat) | Incomplete | BadCrc

  // `decode_record` on the bytes from some offset to the end of the file.
  function Decode(s: Bytes): Decoded {
    if |s| < 8 then Incomplete
    else
      var length := Get4(s);
      if |s| < 8 + length then Incomplete
      else
        var body := s[8..8 + length];
        if CrcWord(s[..4] + body) != Get4(s[4..]) then BadCrc
        else if length < BODY_PREFIX then BadCrc
        else
          var r := ReadBody(body);
          if r.Overrun? then BadCrc else Ok(r.value, 8 + length)
  }

  // ----- reading back what was written -----

  lemma ReadPut4(w: Word, t: Bytes)
    ensures Read4(Put4(w) + t) == Got(w, t)
  {
    GetPut4(w, t);
  }

  lemma ReadPut8(v: Long, t: Bytes)
    ensures Read8(Put8(v) + t) == Got(v, t)
  {
    GetPut8(v, t);
  }

  lemma ReadPutText(text: Bytes, t: Bytes)
    requires |text| < WORD_LIMIT
    ensures ReadText(PutText(text) + t) == Got(text, t)
  {
    assert PutText(text) + t == Put4(|text|) + (text + t);
    ReadPut4(|text|, text + t);
  }

  lemma ReadPutAttr(a: AttrValue, t: Bytes)
    requires AttrFits(a)
    ensures ReadAttr(PutAttr(a) + t) == Got(a, t)
  {
    hide Read4, Read8, ReadText, PutText, Put8, Put4, Get4, Get8;
    match a
    case Null => assert ([0] + t)[1..] == t;
    case Int64(raw) => assert ([1] + Put8(raw) + t)[1..] == Put8(raw) + t; ReadPut8(raw, t);
    case Float64(raw) => assert ([2] + Put8(raw) + t)[1..] == Put8(raw) + t; ReadPut8(raw, t);
    case Bool(raw) => assert ([3] + Put8(raw) + t)[1..] == Put8(raw) + t; ReadPut8(raw, t);
    case Tag(text) => assert ([4] + PutText(text) + t)[1..] == PutText(text) + t; ReadPutText(text, t);
    case Text(text) => assert ([5] + PutText(text) + t)[1..] == PutText(text) + t; ReadPutText(text, t);
  }

  lemma {:induction false} ReadPutAttrs(attrs: seq<AttrValue>, t: Bytes)
    requires forall i :: 0 <= i < |attrs| ==> AttrFits(attrs[i])
    ensures ReadAttrs(PutAttrs(attrs) + t, |attrs|) == Got(attrs, t)
  {
    hide ReadAttr, PutAttr;
    if attrs == [] {
      assert PutAttrs(attrs) + t == t;
    } else {
      var rest, last := attrs[..|attrs| - 1], attrs[|attrs| - 1];
      assert PutAttrs(attrs) + t == PutAttrs(rest) + (PutAttr(last) + t);
      ReadPutAttrs(rest, PutAttr(last) + t);
      ReadPutAttr(last, t);
      assert attrs == rest + [last];
    }
  }

  lemma ReadPutMeta(m: Record, t: Bytes)
    requires MetaFits(m)
    ensures ReadMeta(PutMeta(m) + t) == Got(m, t)
  {
    hide Read4, ReadAttrs, ReadText, Put4, PutAttrs, PutText;
    assert PutMeta(m) + t == Put4(|m.attrs|) + (PutAttrs(m.attrs) + (PutText(m.payload) + t));
    ReadPut4(|m.attrs|, PutAttrs(m.attrs) + (PutText(m.payload) + t));
    ReadPutAttrs(m.attrs, PutText(m.payload) + t);
    ReadPutText(m.payload, t);
  }

  lemma {:induction false} ReadPutWords(vec: seq<Word>, t: Bytes)
    ensures ReadWords(PutWords(vec) + t, |vec|) == Got(vec, t)
  {
    hide Read4, Put4;
    if vec == [] {
      assert PutWords(vec) + t == t;
    } else {
      var rest, last := vec[..|vec| - 1], vec[|vec| - 1];
      assert PutWords(vec) + t == PutWords(rest) + (Put4(last) + t);
      ReadPutWords(rest, Put4(last) + t);
      ReadPut4(last, t);
      assert vec == rest + [last];
    }
  }

  lemma ReadPutVector(vec: seq<Word>, t: Bytes)
    requires |vec| < WORD_LIMIT
    ensures ReadVector(PutVector(vec) + t) == Got(vec, t)
  {
    hide Read4, Put4, ReadWords, PutWords;
    assert PutVector(vec) + t == Put4(|vec|) + (PutWords(vec) + t);
    ReadPut4(|vec|, PutWords(vec) + t);
    ReadPutWords(vec, t);
  }

  lemma ReadPutBody(r: WalRecord)
    requires PartsFit(r)
    ensures ReadBody(Body(r)) == Got(Logged(r), []) && |Body(r)| >= BODY_PREFIX
  {
    hide Read8, Put8, ReadVector, PutVector, ReadMeta, PutMeta;
    var meta := if CarriesMeta(r.kind) then PutMeta(r.meta) else [];
    var vec := (if CarriesVector(r.kind) then PutVector(r.vec) else []) + meta;
    assert Body(r) == [r.kind] + (Put8(r.lsn) + (Put8(r.extId) + vec));
    assert Body(r)[1..] == Put8(r.lsn) + (Put8(r.extId) + vec);
    ReadPut8(r.lsn, Put8(r.extId) + vec);
    ReadPut8(r.extId, vec);
    if CarriesVector(r.kind) { ReadPutVector(r.vec, meta); } else { assert vec == meta; }
    if CarriesMeta(r.kind) { ReadPutMeta(r.meta, []); assert meta + [] == meta; }
  }

  // One frame, whatever follows it, decodes to the record that was logged and is consumed
  // exactly.
  lemma DecodeFrame(r: WalRecord, t: Bytes)
    requires Fits(r)
    ensures Decode(Frame(r) + t) == Ok(Logged(r), |Frame(r)|)
  {
    hide Put4, Get4, ReadBody, Body, CrcWord;
    var s, body := Frame(r) + t, Body(r);
    var length := Put4(|body|);
    var crc := CrcWord(length + body);
    ReadPutBody(r);
    assert s == length + (Put4(crc) + (body + t));
    GetPut4(|body|, Put4(crc) + (body + t));
    assert s[4..] == Put4(crc) + (body + t);
    GetPut4(crc, body + t);
    assert s[..4] == length && s[8..8 + |body|] == body;
  }

  // A frame that was cut short is recognised as incomplete.
  lemma DecodeCut(r: WalRecord, n: nat)
    requires Fits(r) && n < |Frame(r)|
    ensures Decode(Frame(r)[..n]) == Incomplete
  {
    hide Put4, Get4, ReadBody, Body, CrcWord;
    if n >= 8 {
      var length := Put4(|Body(r)|);
      var s := Frame(r)[..n];
      assert s == length + s[4..];
      GetPut4(|Body(r)|, s[4..]);
    }
  }
}
