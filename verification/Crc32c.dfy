/** CRC32C, the checksum of section 12.1 of RFC 3720: the bit-at-a-time definition, the
    table-driven loop, and what the checksum detects. */
module Crc32c {
  import opened WalRecords

  const POLY: bv32 := 0x82F6_3B78
  const ONES: bv32 := 0xFFFF_FFFF

  // ----- words -----

  function Xor(x: bv32, y: bv32): bv32 { x ^ y }
  function Half(x: bv32): bv32 { x >> 1 }
  predicate Odd(x: bv32) { x & 1 == 1 }

  lemma XorHalf(x: bv32, y: bv32)
    ensures Half(Xor(x, y)) == Xor(Half(x), Half(y))
  {
  }

  lemma XorOdd(x: bv32, y: bv32)
    ensures Odd(Xor(x, y)) == (Odd(x) != Odd(y))
  {
    assert (x ^ y) & 1 == (x & 1) ^ (y & 1);
    assert x & 1 == 0 || x & 1 == 1;
    assert y & 1 == 0 || y & 1 == 1;
  }

  lemma XorAssoc(x: bv32, y: bv32, z: bv32)
    ensures Xor(x, Xor(y, z)) == Xor(Xor(x, y), z)
  {
  }

  lemma XorCommutes(x: bv32, y: bv32)
    ensures Xor(x, y) == Xor(y, x)
  {
  }

  lemma XorSwap(x: bv32, y: bv32, z: bv32)
    ensures Xor(Xor(x, y), z) == Xor(Xor(x, z), y)
  {
    hide Xor;
    XorAssoc(x, y, z);
    XorCommutes(y, z);
    XorAssoc(x, z, y);
  }

  lemma XorUndone(x: bv32, z: bv32)
    ensures Xor(Xor(x, z), z) == x
  {
  }

  lemma XorBoth(x: bv32, y: bv32, z: bv32)
    ensures Xor(Xor(x, z), Xor(y, z)) == Xor(x, y)
  {
    hide Xor;
    XorAssoc(Xor(x, z), y, z);
    XorSwap(x, z, y);
    XorUndone(Xor(x, y), z);
  }

  lemma XorZero(x: bv32)
    ensures Xor(x, 0) == x && Xor(0, x) == x
  {
  }

  lemma XorCancels(x: bv32, y: bv32, z: bv32)
    requires Xor(x, z) == Xor(y, z)
    ensures x == y
  {
  }

  lemma SameWord(x: bv32, y: bv32)
    requires Odd(x) == Odd(y) && Half(x) == Half(y)
    ensures x == y
  {
  }

  // ----- one bit at a time -----

  // The register after one shift: the bit that falls out decides on the polynomial.
  function Shift(crc: bv32): bv32 {
    if Odd(crc) then Xor(Half(crc), POLY) else Half(crc)
  }

  // The register after one message bit.
  function Feed(crc: bv32, bit: bool): bv32 {
    if Odd(crc) != bit then Xor(Half(crc), POLY) else Half(crc)
  }

  // The low n bits of v enter, the lowest first.
  function FeedBits(crc: bv32, v: nat, n: nat): bv32
    decreases n
  {
    if n == 0 then crc else FeedBits(Feed(crc, v % 2 == 1), v / 2, n - 1)
  }

  function FeedBytes(crc: bv32, msg: seq<Byte>): bv32 {
    if msg == [] then crc else FeedBits(FeedBytes(crc, msg[..|msg| - 1]), msg[|msg| - 1], 8)
  }

  function Crc(msg: seq<Byte>): bv32 {
    Xor(FeedBytes(ONES, msg), ONES)
  }

  // ----- a shift loses nothing -----

  lemma ShiftLinear(x: bv32, y: bv32)
    ensures Shift(Xor(x, y)) == Xor(Shift(x), Shift(y))
  {
    hide Xor, Half, Odd;
    XorHalf(x, y);
    XorOdd(x, y);
    XorSwap(Half(x), POLY, Half(y));
    XorAssoc(Half(x), Half(y), POLY);
    XorBoth(Half(x), Half(y), POLY);
  }

  // The top coefficient of the polynomial tells which bit fell out.
  lemma ShiftInjective(x: bv32, y: bv32)
    requires Shift(x) == Shift(y)
    ensures x == y
  {
  }

  function Shifts(crc: bv32, n: nat): bv32 {
    if n == 0 then crc else Shift(Shifts(crc, n - 1))
  }

  lemma {:induction false} ShiftsLinear(x: bv32, y: bv32, n: nat)
    ensures Shifts(Xor(x, y), n) == Xor(Shifts(x, n), Shifts(y, n))
  {
    hide Shift, Xor;
    if n > 0 {
      ShiftsLinear(x, y, n - 1);
      ShiftLinear(Shifts(x, n - 1), Shifts(y, n - 1));
    }
  }

  lemma {:induction false} ShiftsInjective(x: bv32, y: bv32, n: nat)
    requires Shifts(x, n) == Shifts(y, n)
    ensures x == y
  {
    hide Shift, Xor;
    if n > 0 {
      ShiftInjective(Shifts(x, n - 1), Shifts(y, n - 1));
      ShiftsInjective(x, y, n - 1);
    }
  }

  lemma {:induction false} ShiftsAhead(x: bv32, n: nat)
    ensures Shifts(x, n + 1) == Shifts(Shift(x), n)
  {
    hide Shift;
    if n > 0 { ShiftsAhead(x, n - 1); }
  }

  // ----- bytes and bits -----

  // The low n bits of v as a word.
  function ToBits(v: nat, n: nat): bv32
    decreases n
  {
    if n == 0 then 0 else Join(v % 2 == 1, ToBits(v / 2, n - 1))
  }

  function Join(bit: bool, x: bv32): bv32 { if bit then (x << 1) | 1 else x << 1 }

  // The low n bits of x as a number.
  function FromBits(x: bv32, n: nat): (v: nat)
    decreases n
  {
    if n == 0 then 0 else (if Odd(x) then 1 else 0) + 2 * FromBits(Half(x), n - 1)
  }

  lemma JoinParts(bit: bool, x: bv32)
    requires x <= 0x7FFF_FFFF
    ensures Odd(Join(bit, x)) == bit && Half(Join(bit, x)) == x
  {
  }

  // The largest word of n bits, for n up to 8.
  function Full(n: nat): bv32
    requires n <= 8
  {
    if n == 0 then 0 else if n == 1 then 0x1 else if n == 2 then 0x3 else if n == 3 then 0x7 else if n == 4 then 0xF
    else if n == 5 then 0x1F else if n == 6 then 0x3F else if n == 7 then 0x7F else 0xFF
  }

  predicate WithinBits(x: bv32, n: nat)
    requires n <= 8
  {
    x <= Full(n)
  }

  lemma JoinFits(bit: bool, x: bv32, n: nat)
    requires 0 < n <= 8 && WithinBits(x, n - 1)
    ensures WithinBits(Join(bit, x), n) && x <= 0x7FFF_FFFF
  {
  }

  lemma FitsByte(x: bv32)
    requires WithinBits(x, 8)
    ensures x <= 0xFF
  {
  }

  lemma {:induction false} ToBitsFits(v: nat, n: nat)
    requires n <= 8
    ensures WithinBits(ToBits(v, n), n)
    decreases n
  {
    hide Join, WithinBits;
    if n == 0 {
      NoBits();
    } else {
      ToBitsFits(v / 2, n - 1);
      JoinFits(v % 2 == 1, ToBits(v / 2, n - 1), n);
    }
  }

  lemma NoBits()
    ensures WithinBits(0, 0)
  {
  }

  lemma ToBitsParts(v: nat, n: nat)
    requires 0 < n <= 8
    ensures Odd(ToBits(v, n)) == (v % 2 == 1) && Half(ToBits(v, n)) == ToBits(v / 2, n - 1)
  {
    hide Join, WithinBits, Odd, Half;
    ToBitsFits(v / 2, n - 1);
    JoinFits(v % 2 == 1, ToBits(v / 2, n - 1), n);
    JoinParts(v % 2 == 1, ToBits(v / 2, n - 1));
  }

  function Power2(n: nat): (p: nat)
    ensures p > 0
  {
    if n == 0 then 1 else 2 * Power2(n - 1)
  }

  lemma {:induction false} FromToBits(v: nat, n: nat)
    requires n <= 8 && v < Power2(n)
    ensures FromBits(ToBits(v, n), n) == v
    decreases n
  {
    hide Join, Odd, Half;
    if n > 0 {
      ToBitsParts(v, n);
      FromToBits(v / 2, n - 1);
    }
  }

  lemma {:induction false} FromBitsBelow(x: bv32, n: nat)
    ensures FromBits(x, n) < Power2(n)
    decreases n
  {
    hide Odd, Half;
    if n > 0 { FromBitsBelow(Half(x), n - 1); }
  }

  // ----- eight feeds are eight shifts of the register with the byte mixed in -----

  lemma FeedShifts(crc: bv32, w: bv32)
    ensures Shift(Xor(crc, w)) == Xor(Feed(crc, Odd(w)), Half(w))
  {
    hide Xor, Half, Odd;
    XorHalf(crc, w);
    XorOdd(crc, w);
    XorSwap(Half(crc), Half(w), POLY);
  }

  lemma {:induction false} FeedBitsShifts(crc: bv32, v: nat, n: nat)
    requires n <= 8
    ensures FeedBits(crc, v, n) == Shifts(Xor(crc, ToBits(v, n)), n)
    decreases n
  {
    hide Shift, Feed, Xor, Half, Odd, Join;
    if n == 0 {
      XorZero(crc);
    } else {
      ToBitsParts(v, n);
      FeedShifts(crc, ToBits(v, n));
      ShiftsAhead(Xor(crc, ToBits(v, n)), n - 1);
      FeedBitsShifts(Feed(crc, v % 2 == 1), v / 2, n - 1);
    }
  }

  // ----- the table -----

  function Halves(x: bv32, n: nat): bv32
    decreases n
  {
    if n == 0 then x else Halves(Half(x), n - 1)
  }

  // Shifting a word n times: its low n bits, shifted, mixed with the rest moved down.
  lemma {:induction false} ShiftsSplit(x: bv32, n: nat)
    requires n <= 8
    ensures Shifts(x, n) == Xor(Shifts(ToBits(FromBits(x, n), n), n), Halves(x, n))
    decreases n
  {
    hide Xor, Half, Odd, Join;
    if n == 0 {
      XorZero(x);
    } else {
      var w := ToBits(FromBits(x, n), n);
      ToBitsParts(FromBits(x, n), n);
      assert Odd(w) == Odd(x) && Half(w) == ToBits(FromBits(Half(x), n - 1), n - 1);
      ShiftsSplit(Half(x), n - 1);
      ShiftsAhead(x, n - 1);
      ShiftsAhead(w, n - 1);
      var p, rest := Shifts(POLY, n - 1), Halves(x, n);
      ShiftsLinear(Half(x), POLY, n - 1);
      ShiftsLinear(Half(w), POLY, n - 1);
      XorSwap(Shifts(Half(w), n - 1), rest, p);
    }
  }

  function Update(crc: bv32, b: Byte): bv32 { Shifts(Xor(crc, ToBits(b, 8)), 8) }

  lemma EightHalves(x: bv32)
    ensures Halves(x, 8) == x >> 8
  {
    hide Halves;
    HalvesStep(x, 7);
    HalvesStep(Half(x), 6);
    HalvesStep(Half(Half(x)), 5);
    HalvesStep(Half(Half(Half(x))), 4);
    HalvesStep(Half(Half(Half(Half(x)))), 3);
    HalvesStep(Half(Half(Half(Half(Half(x))))), 2);
    HalvesStep(Half(Half(Half(Half(Half(Half(x)))))), 1);
    HalvesStep(Half(Half(Half(Half(Half(Half(Half(x))))))), 0);
    HalvesNone(Half(Half(Half(Half(Half(Half(Half(Half(x)))))))));
    EightShifts(x);
  }

  lemma EightShifts(x: bv32)
    ensures Half(Half(Half(Half(Half(Half(Half(Half(x)))))))) == x >> 8
  {
  }

  lemma HalvesStep(x: bv32, n: nat)
    ensures Halves(x, n + 1) == Halves(Half(x), n)
  {
  }

  lemma HalvesNone(x: bv32)
    ensures Halves(x, 0) == x
  {
  }

  ghost predicate TableOK(t: seq<bv32>) {
    |t| == 256 && forall i :: 0 <= i < 256 ==> t[i] == Shifts(ToBits(i, 8), 8)
  }

  method BuildTable() returns (t: array<bv32>)
    ensures fresh(t) && TableOK(t[..])
  {
    hide Shift, Join;
    t := new bv32[256];
    var i := 0;
    while i < 256
      invariant 0 <= i <= 256 && t.Length == 256
      invariant forall j :: 0 <= j < i ==> t[j] == Shifts(ToBits(j, 8), 8)
    {
      var crc := ToBits(i, 8);
      var k := 0;
      while k < 8
        invariant 0 <= k <= 8 && crc == Shifts(ToBits(i, 8), k)
      {
        crc := Shift(crc);
        k := k + 1;
      }
      t[i] := crc;
      i := i + 1;
    }
  }

  // The low byte of a word, as an index.
  function LowByte(x: bv32): (i: nat)
    ensures i < 256
  {
    FromBitsBelow(x, 8);
    Power8();
    FromBits(x, 8)
  }

  lemma Power8()
    ensures Power2(8) == 256
  {
    assert Power2(4) == 16;
  }

  lemma TableStep(t: seq<bv32>, crc: bv32, b: Byte)
    requires TableOK(t)
    ensures |t| == 256
    ensures Xor(t[LowByte(Xor(crc, ToBits(b, 8)))], crc >> 8) == Update(crc, b)
    ensures Update(crc, b) == FeedBits(crc, b, 8)
  {
    hide Xor, Join, Shift, Feed, WithinBits;
    var x := Xor(crc, ToBits(b, 8));
    ShiftsSplit(x, 8);
    EightHalves(x);
    EightHalves(crc);
    ByteGone(crc, ToBits(b, 8));
    ToBitsFits(b, 8);
    FitsByte(ToBits(b, 8));
    FeedBitsShifts(crc, b, 8);
  }

  // Mixing in a byte leaves the upper three bytes as they are.
  lemma ByteGone(crc: bv32, w: bv32)
    ensures w <= 0xFF ==> Xor(crc, w) >> 8 == crc >> 8
  {
  }

  // The table-driven loop computes the bit-at-a-time checksum of every message.
  method Checksum(t: array<bv32>, msg: seq<Byte>) returns (c: bv32)
    requires TableOK(t[..])
    ensures c == Crc(msg)
  {
    hide Xor, Join, TableOK, LowByte, FeedBits;
    var crc := ONES;
    for i := 0 to |msg|
      invariant crc == FeedBytes(ONES, msg[..i])
    {
      TableStep(t[..], crc, msg[i]);
      assert t[..][LowByte(Xor(crc, ToBits(msg[i], 8)))] == t[LowByte(Xor(crc, ToBits(msg[i], 8)))];
      crc := Xor(t[LowByte(Xor(crc, ToBits(msg[i], 8)))], crc >> 8);
      assert msg[..i + 1][..i] == msg[..i];
    }
    assert msg[..|msg|] == msg;
    c := Xor(crc, ONES);
  }

  // ----- what the checksum detects -----

  lemma UpdateInjective(x: bv32, y: bv32, a: Byte, b: Byte)
    requires Update(x, a) == Update(y, b)
    ensures a == b ==> x == y
    ensures x == y ==> a == b
  {
    hide Xor, Join, Shift, ToBits, FromBits;
    ShiftsInjective(Xor(x, ToBits(a, 8)), Xor(y, ToBits(b, 8)), 8);
    if a == b { XorCancels(x, y, ToBits(a, 8)); }
    if x == y {
      XorCommutes(x, ToBits(a, 8));
      XorCommutes(x, ToBits(b, 8));
      XorCancels(ToBits(a, 8), ToBits(b, 8), x);
      Power8();
      FromToBits(a, 8);
      FromToBits(b, 8);
    }
  }

  lemma FeedByte(crc: bv32, msg: seq<Byte>, b: Byte)
    ensures FeedBytes(crc, msg + [b]) == Update(FeedBytes(crc, msg), b)
  {
    assert (msg + [b])[..|msg|] == msg;
    FeedBitsShifts(FeedBytes(crc, msg), b, 8);
  }

  // Two messages that end alike and leave the register in the same state began in the
  // same state.
  lemma {:induction false} FeedInjective(x: bv32, y: bv32, a: seq<Byte>, b: seq<Byte>, post: seq<Byte>)
    requires FeedBytes(x, a + post) == FeedBytes(y, b + post)
    ensures FeedBytes(x, a) == FeedBytes(y, b)
  {
    hide FeedBytes, Update;
    if post == [] {
      assert a + post == a && b + post == b;
    } else {
      var rest, last := post[..|post| - 1], post[|post| - 1];
      assert a + post == (a + rest) + [last] && b + post == (b + rest) + [last];
      FeedByte(x, a + rest, last);
      FeedByte(y, b + rest, last);
      UpdateInjective(FeedBytes(x, a + rest), FeedBytes(y, b + rest), last, last);
      FeedInjective(x, y, a, b, rest);
    }
  }

  // Changing one byte of a message, of any length, changes the checksum.
  lemma OneByteDetected(pre: seq<Byte>, a: Byte, b: Byte, post: seq<Byte>)
    requires a != b
    ensures CrcWord(pre + [a] + post) != CrcWord(pre + [b] + post)
  {
    hide FeedBytes, Update, Xor, FromBits;
    var m, m' := pre + [a] + post, pre + [b] + post;
    FeedByte(ONES, pre, a);
    FeedByte(ONES, pre, b);
    if CrcWord(m) == CrcWord(m') {
      WordInjective(Crc(m), Crc(m'));
      XorCancels(FeedBytes(ONES, m), FeedBytes(ONES, m'), ONES);
      FeedInjective(ONES, ONES, pre + [a], pre + [b], post);
      UpdateInjective(FeedBytes(ONES, pre), FeedBytes(ONES, pre), a, b);
    }
  }

  // The checksum as a number.
  function CrcWord(msg: seq<Byte>): (w: Word) {
    Power32();
    FromBitsBelow(Crc(msg), 32);
    FromBits(Crc(msg), 32)
  }

  lemma Power32()
    ensures Power2(32) == WORD_LIMIT
  {
    PowerSteps(0);
    PowerSteps(8);
    PowerSteps(16);
    PowerSteps(24);
  }

  lemma PowerSteps(n: nat)
    ensures Power2(n + 8) == 256 * Power2(n)
  {
    assert Power2(n + 1) == 2 * Power2(n) && Power2(n + 2) == 2 * Power2(n + 1);
    assert Power2(n + 3) == 2 * Power2(n + 2) && Power2(n + 4) == 2 * Power2(n + 3);
    assert Power2(n + 5) == 2 * Power2(n + 4) && Power2(n + 6) == 2 * Power2(n + 5);
    assert Power2(n + 7) == 2 * Power2(n + 6) && Power2(n + 8) == 2 * Power2(n + 7);
  }

  lemma {:induction false} SameBits(x: bv32, y: bv32, n: nat)
    requires FromBits(x, n) == FromBits(y, n) && Halves(x, n) == Halves(y, n)
    ensures x == y
    decreases n
  {
    hide Odd, Half;
    if n > 0 {
      SameBits(Half(x), Half(y), n - 1);
      SameWord(x, y);
    }
  }

  lemma {:induction false} HalvesAdd(x: bv32, m: nat, n: nat)
    ensures Halves(x, m + n) == Halves(Halves(x, m), n)
    decreases m
  {
    hide Half;
    if m > 0 { HalvesAdd(Half(x), m - 1, n); }
  }

  lemma AllHalves(x: bv32)
    ensures Halves(x, 32) == 0
  {
    hide Halves;
    HalvesAdd(x, 8, 24);
    HalvesAdd(Halves(x, 8), 8, 16);
    HalvesAdd(Halves(Halves(x, 8), 8), 8, 8);
    EightHalves(x);
    EightHalves(x >> 8);
    EightHalves(x >> 8 >> 8);
    EightHalves(x >> 8 >> 8 >> 8);
    AllGone(x);
  }

  lemma AllGone(x: bv32)
    ensures x >> 8 >> 8 >> 8 >> 8 == 0
  {
  }

  lemma WordInjective(x: bv32, y: bv32)
    requires FromBits(x, 32) == FromBits(y, 32)
    ensures x == y
  {
    hide FromBits, Halves;
    AllHalves(x);
    AllHalves(y);
    SameBits(x, y, 32);
  }
}
