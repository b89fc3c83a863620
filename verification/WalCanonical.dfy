/** What decodes need not have been encoded: the decoder looks neither at the kind nor at body
    bytes left over. Here is exactly which frames it takes are frames that the encoder makes. */
module WalCanonical {
  import opened WalRecords
  import opened Crc32c
  import opened WalCodec

  // ----- what was read, written again -----

  lemma PutGet2(s: Bytes)
    requires |s| >= 2
    ensures Put2(Get2(s)) == s[..2]
  {
  }

  lemma PutGet4(s: Bytes)
    requires |s| >= 4
    ensures Put4(Get4(s)) == s[..4]
  {
    hide Put2, Get2;
    PutGet2(s);
    PutGet2(s[2..]);
    assert s[..2] + s[2..][..2] == s[..4];
  }

  lemma PutGet8(s: Bytes)
    requires |s| >= 8
    ensures Put8(Get8(s)) == s[..8]
  {
    hide Put4, Get4;
    PutGet4(s);
    PutGet4(s[4..]);
    assert s[..4] + s[4..][..4] == s[..8];
  }

  // A successful read took these bytes off the front.
  ghost predicate Took<T>(s: Bytes, r: Read<T>, put: Bytes) {
    r.Got? && s == put + r.rest
  }

  lemma TookText(s: Bytes)
    requires ReadText(s).Got?
    ensures |ReadText(s).value| < WORD_LIMIT && Took(s, ReadText(s), PutText(ReadText(s).value))
  {
    hide Put4, Get4;
    PutGet4(s);
    var n := Get4(s);
    assert s == s[..4] + (s[4..][..n] + s[4..][n..]);
  }

  lemma TookAttr(s: Bytes)
    requires ReadAttr(s).Got?
    ensures AttrFits(ReadAttr(s).value) && Took(s, ReadAttr(s), PutAttr(ReadAttr(s).value))
  {
    hide Put4, Get4, Put8, Get8, ReadText, PutText;
    assert s == [s[0]] + s[1..];
    if 1 <= s[0] <= 3 {
      PutGet8(s[1..]);
      assert s[1..] == s[1..][..8] + s[1..][8..];
    } else if 4 <= s[0] <= 5 {
      TookText(s[1..]);
    }
  }

  lemma {:induction false} TookAttrs(s: Bytes, n: nat)
    requires ReadAttrs(s, n).Got?
    ensures |ReadAttrs(s, n).value| == n
    ensures forall i :: 0 <= i < n ==> AttrFits(ReadAttrs(s, n).value[i])
    ensures Took(s, ReadAttrs(s, n), PutAttrs(ReadAttrs(s, n).value))
  {
    hide ReadAttr, PutAttr, AttrFits;
    if n > 0 {
      var first := ReadAttrs(s, n - 1);
      TookAttrs(s, n - 1);
      TookAttr(first.rest);
      var last := ReadAttr(first.rest).value;
      var all := first.value + [last];
      assert all[..|all| - 1] == first.value && all[|all| - 1] == last;
    }
  }

  lemma TookMeta(s: Bytes)
    requires ReadMeta(s).Got?
    ensures MetaFits(ReadMeta(s).value) && Took(s, ReadMeta(s), PutMeta(ReadMeta(s).value))
  {
    hide Put4, Get4, ReadAttrs, PutAttrs, ReadText, PutText, AttrFits;
    PutGet4(s);
    var n := Get4(s);
    assert s == s[..4] + s[4..];
    TookAttrs(s[4..], n);
    var attrs := ReadAttrs(s[4..], n);
    TookText(attrs.rest);
  }

  lemma {:induction false} TookWords(s: Bytes, n: nat)
    requires ReadWords(s, n).Got?
    ensures |ReadWords(s, n).value| == n && Took(s, ReadWords(s, n), PutWords(ReadWords(s, n).value))
  {
    hide Put4, Get4;
    if n > 0 {
      var first := ReadWords(s, n - 1);
      TookWords(s, n - 1);
      PutGet4(first.rest);
      assert first.rest == first.rest[..4] + first.rest[4..];
      var all := first.value + [Get4(first.rest)];
      assert all[..|all| - 1] == first.value;
    }
  }

  lemma TookVector(s: Bytes)
    requires ReadVector(s).Got?
    ensures |ReadVector(s).value| < WORD_LIMIT && Took(s, ReadVector(s), PutVector(ReadVector(s).value))
  {
    hide Put4, Get4, ReadWords, PutWords;
    PutGet4(s);
    assert s == s[..4] + s[4..];
    TookWords(s[4..], Get4(s));
  }

  lemma TookBody(s: Bytes)
    requires ReadBody(s).Got?
    ensures PartsFit(ReadBody(s).value) && Took(s, ReadBody(s), Body(ReadBody(s).value))
    ensures Logged(ReadBody(s).value) == ReadBody(s).value
  {
    hide Put8, Get8, ReadVector, PutVector, ReadMeta, PutMeta, MetaFits, Body;
    var r, a, b, tail := ReadBody(s).value, s[1..], s[1..][8..], s[1..][8..][8..];
    assert s == [s[0]] + a;
    PutGet8(a);
    PutGet8(b);
    assert a == Put8(r.lsn) + b && b == Put8(r.extId) + tail;
    var rest := if CarriesVector(r.kind) then ReadVector(tail).rest else tail;
    if CarriesVector(r.kind) { TookVector(tail); }
    if CarriesMeta(r.kind) { TookMeta(rest); }
    var vec := if CarriesVector(r.kind) then PutVector(r.vec) else [];
    var meta := if CarriesMeta(r.kind) then PutMeta(r.meta) else [];
    assert tail == vec + rest && rest == meta + ReadBody(s).rest;
    BodyIs(r, vec, meta, ReadBody(s).rest);
    assert s == [r.kind] + (Put8(r.lsn) + (Put8(r.extId) + (vec + (meta + ReadBody(s).rest))));
  }

  lemma BodyIs(r: WalRecord, vec: Bytes, meta: Bytes, t: Bytes)
    requires PartsFit(r)
    requires vec == if CarriesVector(r.kind) then PutVector(r.vec) else []
    requires meta == if CarriesMeta(r.kind) then PutMeta(r.meta) else []
    ensures Body(r) + t == [r.kind] + (Put8(r.lsn) + (Put8(r.extId) + (vec + (meta + t))))
  {
    hide Put8, PutVector, PutMeta;
    assert Body(r) == [r.kind] + Put8(r.lsn) + Put8(r.extId) + vec + meta;
  }

  // ----- frames -----

  // The body bytes that a decoded frame has over.
  function LeftOver(s: Bytes): Bytes
    requires Decode(s).Ok?
  {
    ReadBody(s[8..8 + Get4(s)]).rest
  }

  predicate KnownKind(kind: Byte) { INSERT <= kind <= SET_META }

  // The frame is what the encoder makes of a record of one of the five kinds.
  ghost predicate Encoded(f: Bytes) {
    exists r: WalRecord :: Fits(r) && KnownKind(r.kind) && f == Frame(r)
  }

  lemma DecodedParts(s: Bytes)
    requires Decode(s).Ok?
    ensures var length := Get4(s);
      && Decode(s).consumed == 8 + length <= |s| && ReadBody(s[8..8 + length]) == Got(Decode(s).rec, LeftOver(s))
      && s[..8 + length] == s[..4] + s[4..8] + s[8..8 + length]
      && CrcWord(s[..4] + s[8..8 + length]) == Get4(s[4..])
  {
  }

  /** A frame that decodes is, to the byte, the frame of the decoded record if and only if no
      body bytes are left over. */
  lemma ReencodesIff(s: Bytes)
    requires Decode(s).Ok?
    ensures Decode(s).consumed <= |s| && Fits(Decode(s).rec) && Logged(Decode(s).rec) == Decode(s).rec
    ensures s[..Decode(s).consumed] == Frame(Decode(s).rec) <==> LeftOver(s) == []
  {
    hide Decode, ReadBody, Body, Put4, Get4, CrcWord, LeftOver, PartsFit, Logged;
    DecodedParts(s);
    var r: WalRecord, length: nat := Decode(s).rec, Get4(s);
    var body := s[8..8 + length];
    TookBody(body);
    PutGet4(s);
    PutGet4(s[4..]);
    assert s[4..][..4] == s[4..8];
    if LeftOver(s) == [] {
      assert body == Body(r);
    } else {
      assert |Frame(r)| < 8 + length;
    }
  }

  /** And it is a frame that the encoder makes if and only if, besides, its kind is one of the
      five. */
  lemma EncodedIff(s: Bytes)
    requires Decode(s).Ok?
    ensures Decode(s).consumed <= |s|
    ensures Encoded(s[..Decode(s).consumed]) <==> LeftOver(s) == [] && KnownKind(Decode(s).rec.kind)
  {
    hide Decode, Frame, Fits, LeftOver;
    ReencodesIff(s);
    var d := Decode(s);
    var f := s[..d.consumed];
    assert s == f + s[d.consumed..];
    if Encoded(f) {
      var r: WalRecord :| Fits(r) && KnownKind(r.kind) && f == Frame(r);
      DecodeFrame(r, s[d.consumed..]);
      SameFrame(r);
    }
  }

  lemma SameFrame(r: WalRecord)
    requires Fits(r)
    ensures Fits(Logged(r)) && Frame(Logged(r)) == Frame(r)
  {
  }

  // ----- the two that fail -----

  // The frame of a body with more bytes behind it.
  function Padded(r: WalRecord, extra: Bytes): Bytes
    requires Fits(r) && |Body(r) + extra| < WORD_LIMIT
  {
    var body := Body(r) + extra;
    Put4(|body|) + Put4(CrcWord(Put4(|body|) + body)) + body
  }

  // Bytes behind any record's body are taken, and the record read as if they were not there.
  lemma PaddingIsTaken(r: WalRecord, extra: Bytes)
    requires Fits(r) && |Body(r) + extra| < WORD_LIMIT
    ensures Decode(Padded(r, extra)) == Ok(Logged(r), |Padded(r, extra)|)
    ensures LeftOver(Padded(r, extra)) == extra
  {
    hide Put4, Get4, ReadBody, Body, CrcWord;
    var s, body := Padded(r, extra), Body(r) + extra;
    var length := Put4(|body|);
    var crc := CrcWord(length + body);
    assert s == length + (Put4(crc) + body);
    GetPut4(|body|, Put4(crc) + body);
    assert s[4..] == Put4(crc) + body;
    GetPut4(crc, body);
    assert s[..4] == length && s[8..8 + |body|] == body;
    ReadPadded(r, extra);
  }

  lemma ReadPadded(r: WalRecord, extra: Bytes)
    requires PartsFit(r)
    ensures ReadBody(Body(r) + extra) == Got(Logged(r), extra) && |Body(r)| >= BODY_PREFIX
  {
    hide Read8, Put8, ReadVector, PutVector, ReadMeta, PutMeta;
    var meta := (if CarriesMeta(r.kind) then PutMeta(r.meta) else []) + extra;
    var vec := (if CarriesVector(r.kind) then PutVector(r.vec) else []) + meta;
    var s := Body(r) + extra;
    BodyIs(r, if CarriesVector(r.kind) then PutVector(r.vec) else [],
           if CarriesMeta(r.kind) then PutMeta(r.meta) else [], extra);
    assert s == [r.kind] + (Put8(r.lsn) + (Put8(r.extId) + vec));
    assert s[1..] == Put8(r.lsn) + (Put8(r.extId) + vec);
    ReadPut8(r.lsn, Put8(r.extId) + vec);
    ReadPut8(r.extId, vec);
    if CarriesVector(r.kind) { ReadPutVector(r.vec, meta); } else { assert vec == meta; }
    if CarriesMeta(r.kind) { ReadPutMeta(r.meta, extra); } else { assert meta == extra; }
  }

  /** The smallest cases: a record of kind 9, and a delete with one byte too many. Both decode,
      and neither is a frame that the encoder makes. */
  lemma TakenThoughNotEncoded()
    ensures var odd, drop := WalRecord(9, 1, 1, [], NO_META), WalRecord(DELETE, 1, 1, [], NO_META);
      && Fits(odd) && Decode(Frame(odd)) == Ok(odd, |Frame(odd)|) && !Encoded(Frame(odd))
      && Fits(drop) && |Body(drop) + [0]| < WORD_LIMIT
      && Decode(Padded(drop, [0])) == Ok(drop, |Padded(drop, [0])|) && !Encoded(Padded(drop, [0]))
  {
    hide Decode, Frame, Padded, LeftOver;
    var odd, drop := WalRecord(9, 1, 1, [], NO_META), WalRecord(DELETE, 1, 1, [], NO_META);
    assert |Body(odd)| == 17 && |Body(drop)| == 17;
    DecodeFrame(odd, []);
    assert Frame(odd) + [] == Frame(odd);
    EncodedIff(Frame(odd));
    assert Frame(odd)[..|Frame(odd)|] == Frame(odd);
    PaddingIsTaken(drop, [0]);
    EncodedIff(Padded(drop, [0]));
    assert Padded(drop, [0])[..|Padded(drop, [0])|] == Padded(drop, [0]);
  }
}
