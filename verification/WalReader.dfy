/** The codec as the source runs it: a buffer that grows under `put`, a cursor that moves
    through bytes, and loops over vectors, strings and attributes. */
module WalReader {
  import opened Basics
  import opened WalRecords
  import opened Crc32c
  import opened WalCodec

  // ----- writing -----

  // `encode_record`.
  method EncodeRecord(table: array<bv32>, r: WalRecord) returns (frame: Bytes)
    requires TableOK(table[..]) && Fits(r)
    ensures frame == Frame(r)
  {
    hide Put4, Put8, PutWords, PutMeta, CrcWord, TableOK;
    var body := [r.kind] + Put8(r.lsn) + Put8(r.extId);
    if CarriesVector(r.kind) {
      var words := EncodeWords(r.vec);
      body := body + (Put4(|r.vec|) + words);
    }
    if CarriesMeta(r.kind) {
      var meta := EncodeMeta(r.meta);
      body := body + meta;
    }
    assert body == Body(r);
    var length := Put4(|body|);
    var crc := ChecksumWord(table, length + body);
    frame := length + Put4(crc) + body;
  }

  // The checksum as the number that is stored.
  method ChecksumWord(table: array<bv32>, msg: Bytes) returns (w: Word)
    requires TableOK(table[..])
    ensures w == CrcWord(msg)
  {
    hide TableOK, FromBits, Crc;
    var crc := Checksum(table, msg);
    Power32();
    FromBitsBelow(crc, 32);
    w := FromBits(crc, 32);
    IsCrcWord(msg);
  }

  lemma IsCrcWord(msg: Bytes)
    ensures CrcWord(msg) == FromBits(Crc(msg), 32)
  {
  }

  method EncodeWords(vec: seq<Word>) returns (out: Bytes)
    ensures out == PutWords(vec)
  {
    out := [];
    for i := 0 to |vec|
      invariant out == PutWords(vec[..i])
    {
      out := out + Put4(vec[i]);
      assert vec[..i + 1][..i] == vec[..i];
    }
    assert vec[..|vec|] == vec;
  }

  // `put_meta`.
  method EncodeMeta(m: Record) returns (out: Bytes)
    requires MetaFits(m)
    ensures out == PutMeta(m)
  {
    hide Put4, PutAttr;
    out := Put4(|m.attrs|);
    for i := 0 to |m.attrs|
      invariant out == Put4(|m.attrs|) + PutAttrs(m.attrs[..i])
    {
      AttrsSnoc(m.attrs, i);
      out := out + PutAttr(m.attrs[i]);
    }
    assert m.attrs[..|m.attrs|] == m.attrs;
    out := out + Put4(|m.payload|);
    out := out + m.payload;
  }

  lemma AttrsSnoc(attrs: seq<AttrValue>, i: nat)
    requires i < |attrs| && forall k :: 0 <= k < |attrs| ==> AttrFits(attrs[k])
    ensures PutAttrs(attrs[..i + 1]) == PutAttrs(attrs[..i]) + PutAttr(attrs[i])
  {
    assert attrs[..i + 1][..i] == attrs[..i];
  }

  // ----- reading -----

  /** A cursor over a buffer. A read past the end fails and leaves the cursor. */
  class Reader {
    const buf: Bytes
    var p: nat

    ghost predicate Valid()
      reads this
    {
      p <= |buf|
    }

    function Rest(): Bytes
      requires Valid()
      reads this
    {
      buf[p..]
    }

    constructor (data: Bytes)
      ensures Valid() && Rest() == data
    {
      buf, p := data, 0;
    }

    method Get1() returns (r: Option<Byte>)
      requires Valid()
      modifies this`p
      ensures Valid() && Matches(Read1(old(Rest())), r, Rest())
    {
      if p + 1 > |buf| {
        return None;
      }
      r, p := Some(buf[p]), p + 1;
    }

    method Next4() returns (r: Option<Word>)
      requires Valid()
      modifies this`p
      ensures Valid() && Matches(Read4(old(Rest())), r, Rest())
    {
      if p + 4 > |buf| {
        return None;
      }
      r := Some(Get4(buf[p..]));
      p := p + 4;
    }

    method Next8() returns (r: Option<Long>)
      requires Valid()
      modifies this`p
      ensures Valid() && Matches(Read8(old(Rest())), r, Rest())
    {
      if p + 8 > |buf| {
        return None;
      }
      r := Some(Get8(buf[p..]));
      p := p + 8;
    }

    // A length and as many bytes, read one by one.
    method NextText() returns (r: Option<Bytes>)
      requires Valid()
      modifies this`p
      ensures Valid() && Matches(ReadText(old(Rest())), r, Rest())
    {
      var n := Next4();
      if n.None? {
        return None;
      }
      ghost var start := Rest();
      var text: Bytes := [];
      for k := 0 to n.value
        invariant Valid() && k <= |start| && text == start[..k] && Rest() == start[k..]
      {
        var b := Get1();
        if b.None? {
          return None;
        }
        text := text + [b.value];
      }
      r := Some(text);
    }

    method NextAttr() returns (r: Option<AttrValue>)
      requires Valid()
      modifies this`p
      ensures Valid() && Matches(ReadAttr(old(Rest())), r, Rest())
    {
      var tag := Get1();
      if tag.None? {
        return None;
      }
      if tag.value == 0 {
        return Some(Null);
      }
      if tag.value <= 3 {
        var raw := Next8();
        if raw.None? {
          return None;
        }
        return Some(
          if tag.value == 1 then Int64(raw.value) else if tag.value == 2 then Float64(raw.value) else Bool(raw.value));
      }
      if tag.value <= 5 {
        var text := NextText();
        if text.None? {
          return None;
        }
        return Some(if tag.value == 4 then Tag(text.value) else Text(text.value));
      }
      r := None;
    }

    // `get_meta`.
    method NextMeta() returns (r: Option<Record>)
      requires Valid()
      modifies this`p
      ensures Valid() && Matches(ReadMeta(old(Rest())), r, Rest())
    {
      var n := Next4();
      if n.None? {
        return None;
      }
      ghost var start := Rest();
      var attrs: seq<AttrValue> := [];
      for i := 0 to n.value
        invariant Valid() && ReadAttrs(start, i) == Got(attrs, Rest())
      {
        var a := NextAttr();
        if a.None? {
          AttrsOverrun(start, i + 1, n.value);
          return None;
        }
        attrs := attrs + [a.value];
      }
      var payload := NextText();
      if payload.None? {
        return None;
      }
      r := Some(Record(attrs, payload.value));
    }

    method NextVector() returns (r: Option<seq<Word>>)
      requires Valid()
      modifies this`p
      ensures Valid() && Matches(ReadVector(old(Rest())), r, Rest())
    {
      var n := Next4();
      if n.None? {
        return None;
      }
      ghost var start := Rest();
      var vec: seq<Word> := [];
      for i := 0 to n.value
        invariant Valid() && ReadWords(start, i) == Got(vec, Rest())
      {
        var w := Next4();
        if w.None? {
          WordsOverrun(start, i + 1, n.value);
          return None;
        }
        vec := vec + [w.value];
      }
      r := Some(vec);
    }
  }

  // What a read returned agrees with its specification, and the cursor with what is left.
  ghost predicate Matches<T(!new)>(spec: Read<T>, r: Option<T>, rest: Bytes) {
    match spec
    case Overrun => r.None?
    case Got(value, left) => r == Some(value) && rest == left
  }

  lemma {:induction false} AttrsOverrun(s: Bytes, i: nat, n: nat)
    requires i <= n && ReadAttrs(s, i).Overrun?
    ensures ReadAttrs(s, n).Overrun?
    decreases n
  {
    if i < n { AttrsOverrun(s, i, n - 1); }
  }

  lemma {:induction false} WordsOverrun(s: Bytes, i: nat, n: nat)
    requires i <= n && ReadWords(s, i).Overrun?
    ensures ReadWords(s, n).Overrun?
    decreases n
  {
    if i < n { WordsOverrun(s, i, n - 1); }
  }

  // `decode_record`.
  method DecodeRecord(table: array<bv32>, data: Bytes) returns (d: Decoded)
    requires TableOK(table[..])
    ensures d == Decode(data)
  {
    hide Get4, TableOK, ReadBody, CrcWord;
    if |data| < 8 {
      return Incomplete;
    }
    var length, stored := Get4(data), Get4(data[4..]);
    if |data| < 8 + length {
      return Incomplete;
    }
    var body := data[8..8 + length];
    var crc := ChecksumWord(table, data[..4] + body);
    if crc != stored {
      return BadCrc;
    }
    if length < BODY_PREFIX {
      return BadCrc;
    }
    var r := DecodeBody(body);
    d := if r.Some? then Ok(r.value, 8 + length) else BadCrc;
  }

  method DecodeBody(body: Bytes) returns (r: Option<WalRecord>)
    ensures match ReadBody(body) case Overrun => r.None? case Got(rec, _) => r == Some(rec)
  {
    hide Read1, Read4, Read8, ReadVector, ReadMeta;
    var rd := new Reader(body);
    var kind := rd.Get1();
    if kind.None? {
      return None;
    }
    var lsn := rd.Next8();
    if lsn.None? {
      return None;
    }
    var extId := rd.Next8();
    if extId.None? {
      return None;
    }
    var vec: seq<Word> := [];
    if CarriesVector(kind.value) {
      var v := rd.NextVector();
      if v.None? {
        return None;
      }
      vec := v.value;
    }
    var meta := NO_META;
    if CarriesMeta(kind.value) {
      var m := rd.NextMeta();
      if m.None? {
        return None;
      }
      meta := m.value;
    }
    r := Some(WalRecord(kind.value, lsn.value, extId.value, vec, meta));
  }
}
