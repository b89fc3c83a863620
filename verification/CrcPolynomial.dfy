/** Which checksum it is: the remainder of the message, as a polynomial over GF(2), by the
    generator of section 12.1 of RFC 3720. */
module CrcPolynomial {
  import opened WalRecords
  import opened Crc32c

  // ----- polynomials: the exponents whose coefficient is 1 -----

  type Poly = set<nat>

  const GENERATOR: Poly := {32, 28, 27, 26, 25, 23, 22, 20, 19, 18, 14, 13, 11, 10, 9, 8, 6, 0}

  function Plus(p: Poly, q: Poly): Poly { (p - q) + (q - p) }
  function TimesX(p: Poly): Poly { set e | e in p :: e + 1 }

  // The product of the generator and the quotient with coefficients qs, the highest first.
  function Multiple(qs: seq<bool>): Poly {
    if qs == [] then {}
    else
      var p := TimesX(Multiple(qs[..|qs| - 1]));
      if qs[|qs| - 1] then Plus(p, GENERATOR) else p
  }

  // r is left when p is divided by the generator.
  ghost predicate IsRemainder(p: Poly, r: Poly) {
    (forall e :: e in r ==> e < 32) && exists qs :: p == Plus(Multiple(qs), r)
  }

  // Bit j of a message: byte by byte, the lowest bit of each byte first.
  predicate MessageBit(msg: seq<Byte>, j: nat)
    requires j < 8 * |msg|
  {
    (msg[j / 8] / Power2(j % 8)) % 2 == 1
  }

  // The message times x^32, its first bit the highest, with its first 32 coefficients
  // complemented.
  function Dividend(msg: seq<Byte>): Poly {
    set e: nat | e < 8 * |msg| + 32 && DividendTerm(msg, e)
  }

  predicate DividendTerm(msg: seq<Byte>, e: nat)
    requires e < 8 * |msg| + 32
  {
    (e >= 32 && MessageBit(msg, 8 * |msg| + 31 - e)) != (e >= 8 * |msg|)
  }

  // A checksum is sent complemented, the coefficient of x^31 in its lowest bit.
  function Residue(w: Word): Poly {
    set e: nat | e < 32 && ResidueTerm(w, e)
  }

  predicate ResidueTerm(w: Word, e: nat)
    requires e < 32
  {
    (w / Power2(31 - e)) % 2 == 0
  }

  // ----- sums -----

  lemma PlusSwap(p: Poly, q: Poly, r: Poly)
    ensures Plus(Plus(p, q), r) == Plus(Plus(p, r), q)
    ensures Plus(p, Plus(q, r)) == Plus(Plus(p, q), r)
    ensures Plus(p, q) == Plus(q, p) && Plus(Plus(p, q), q) == p && Plus(p, {}) == p
  {
  }

  lemma TimesXPlus(p: Poly, q: Poly)
    ensures TimesX(Plus(p, q)) == Plus(TimesX(p), TimesX(q))
  {
    forall e: nat ensures e in TimesX(Plus(p, q)) <==> e in Plus(TimesX(p), TimesX(q)) {
      if e > 0 {
        InTimesX(p, e - 1);
        InTimesX(q, e - 1);
        InTimesX(Plus(p, q), e - 1);
      }
    }
  }

  lemma InTimesX(p: Poly, e: nat)
    ensures e + 1 in TimesX(p) <==> e in p
    ensures 0 !in TimesX(p)
  {
  }

  lemma MultipleNext(qs: seq<bool>, q: bool)
    ensures Multiple(qs + [q]) == if q then Plus(TimesX(Multiple(qs)), GENERATOR) else TimesX(Multiple(qs))
  {
    assert (qs + [q])[..|qs|] == qs;
  }

  // ----- there is one remainder -----

  function Zip(a: seq<bool>, b: seq<bool>): (c: seq<bool>)
    requires |a| == |b|
    ensures |c| == |a|
  {
    seq(|a|, i requires 0 <= i < |a| => a[i] != b[i])
  }

  // Multiples of the generator add up to one.
  lemma {:induction false} MultiplesAdd(a: seq<bool>, b: seq<bool>)
    requires |a| == |b|
    ensures Multiple(Zip(a, b)) == Plus(Multiple(a), Multiple(b))
    decreases |a|
  {
    if a != [] {
      hide TimesX, Plus;
      var n := |a| - 1;
      var p, q := Multiple(a[..n]), Multiple(b[..n]);
      MultiplesAdd(a[..n], b[..n]);
      assert Zip(a, b)[..n] == Zip(a[..n], b[..n]);
      TimesXPlus(p, q);
      var x, y := TimesX(p), TimesX(q);
      if a[n] && b[n] {
        Cancel(x, y, GENERATOR);
      } else {
        PlusSwap(x, GENERATOR, y);
        PlusSwap(x, y, GENERATOR);
      }
    }
  }

  function Zeros(n: nat): (z: seq<bool>)
    ensures |z| == n && forall i :: 0 <= i < n ==> !z[i]
  {
    seq(n, _ => false)
  }

  // Leading zeros of a quotient do not count.
  lemma {:induction false} MultiplePadded(n: nat, qs: seq<bool>)
    ensures Multiple(Zeros(n) + qs) == Multiple(qs)
    decreases n + |qs|
  {
    if qs != [] {
      assert (Zeros(n) + qs)[..n + |qs| - 1] == Zeros(n) + qs[..|qs| - 1];
      MultiplePadded(n, qs[..|qs| - 1]);
    } else if n > 0 {
      assert Zeros(n) + qs == Zeros(n - 1) + qs + [false];
      MultiplePadded(n - 1, qs);
      MultipleNext(Zeros(n - 1) + qs, false);
      assert TimesX({}) == {};
    }
  }

  // The first coefficient of the quotient decides on the degree.
  lemma {:induction false} MultipleDegree(qs: seq<bool>)
    requires qs != [] && qs[0]
    ensures |qs| + 31 in Multiple(qs) && forall e :: e in Multiple(qs) ==> e <= |qs| + 31
  {
    var n := |qs| - 1;
    if n == 0 {
      assert qs[..0] == [] && Multiple(qs[..0]) == {} && TimesX({}) == {};
      assert Plus({}, GENERATOR) == GENERATOR;
    } else {
      MultipleDegree(qs[..n]);
      DegreeStep(Multiple(qs[..n]), n + 31);
    }
  }

  lemma DegreeStep(p: Poly, n: nat)
    requires n in p && n >= 32 && forall e :: e in p ==> e <= n
    ensures n + 1 in TimesX(p) && forall e :: e in TimesX(p) ==> e <= n + 1
    ensures n + 1 in Plus(TimesX(p), GENERATOR) && forall e :: e in Plus(TimesX(p), GENERATOR) ==> e <= n + 1
  {
    InTimesX(p, n);
  }

  lemma {:induction false} SmallMultiple(qs: seq<bool>)
    requires forall e :: e in Multiple(qs) ==> e < 32
    ensures Multiple(qs) == {}
    decreases |qs|
  {
    if qs != [] {
      if qs[0] {
        MultipleDegree(qs);
        assert false;
      } else {
        assert qs == Zeros(1) + qs[1..];
        MultiplePadded(1, qs[1..]);
        SmallMultiple(qs[1..]);
      }
    }
  }

  // A division leaves one remainder.
  lemma OneRemainder(p: Poly, r: Poly, r': Poly)
    requires IsRemainder(p, r) && IsRemainder(p, r')
    ensures r == r'
  {
    hide Multiple;
    var a :| p == Plus(Multiple(a), r);
    var b :| p == Plus(Multiple(b), r');
    var n := if |a| >= |b| then |a| else |b|;
    var wideA, wideB := Zeros(n - |a|) + a, Zeros(n - |b|) + b;
    MultiplePadded(n - |a|, a);
    MultiplePadded(n - |b|, b);
    MultiplesAdd(wideA, wideB);
    var d := Multiple(Zip(wideA, wideB));
    assert d == Plus(r, r');
    SmallMultiple(Zip(wideA, wideB));
  }

  // ----- the register as a polynomial -----

  // All terms below x^32.
  const LOW: Poly := {0, 1, 2, 3, 4, 5, 6, 7, 8, 9, 10, 11, 12, 13, 14, 15,
                      16, 17, 18, 19, 20, 21, 22, 23, 24, 25, 26, 27, 28, 29, 30, 31}

  function Reg(x: bv32): Poly { set e: nat | e < 32 && RegTerm(x, e) }

  predicate RegTerm(x: bv32, e: nat)
    requires e < 32
  {
    Odd(Halves(x, 31 - e))
  }

  lemma {:induction false} HalvesXor(x: bv32, y: bv32, n: nat)
    ensures Halves(Xor(x, y), n) == Xor(Halves(x, n), Halves(y, n))
    decreases n
  {
    hide Xor, Half;
    if n > 0 {
      XorHalf(x, y);
      HalvesXor(Half(x), Half(y), n - 1);
    }
  }

  lemma RegXor(x: bv32, y: bv32)
    ensures Reg(Xor(x, y)) == Plus(Reg(x), Reg(y))
  {
    hide Xor, Odd, Halves;
    forall e: nat | e < 32 ensures e in Reg(Xor(x, y)) <==> e in Plus(Reg(x), Reg(y)) {
      HalvesXor(x, y, 31 - e);
      XorOdd(Halves(x, 31 - e), Halves(y, 31 - e));
    }
  }

  // Moving down by a bit is multiplying by x; what falls out is the coefficient of x^32.
  lemma RegHalf(x: bv32)
    ensures Reg(Half(x)) == TimesX(Reg(x)) - {32} && (31 in Reg(x) <==> Odd(x))
  {
    hide Odd, Half;
    assert Halves(x, 0) == x;
    forall e: nat | e < 32 ensures e in Reg(Half(x)) <==> e in TimesX(Reg(x)) {
      assert Halves(Half(x), 31 - e) == Halves(x, 32 - e);
      if e > 0 {
        InTimesX(Reg(x), e - 1);
      } else {
        AllHalves(x);
        ZeroIsEven();
      }
    }
  }

  lemma ZeroIsEven()
    ensures !Odd(0)
  {
  }

  // ----- the bits of two constants -----

  lemma {:induction false} HalvesNext(w: bv32, k: nat)
    ensures Halves(w, k + 1) == Half(Halves(w, k))
    decreases k
  {
    hide Half;
    if k > 0 { HalvesNext(Half(w), k - 1); }
  }

  // Four bits of a word, once it is moved down to x.
  lemma FourBits(w: bv32, k: nat, x: bv32)
    requires Halves(w, k) == x
    ensures Halves(w, k + 4) == x >> 4
    ensures Odd(Halves(w, k)) == (x & 1 != 0) && Odd(Halves(w, k + 1)) == (x & 2 != 0)
    ensures Odd(Halves(w, k + 2)) == (x & 4 != 0) && Odd(Halves(w, k + 3)) == (x & 8 != 0)
  {
    hide Half, Odd, Halves;
    HalvesNext(w, k);
    HalvesNext(w, k + 1);
    HalvesNext(w, k + 2);
    HalvesNext(w, k + 3);
    FourHalves(x);
  }

  lemma FourHalves(x: bv32)
    ensures Half(Half(Half(Half(x)))) == x >> 4
    ensures Odd(x) == (x & 1 != 0) && Odd(Half(x)) == (x & 2 != 0)
    ensures Odd(Half(Half(x))) == (x & 4 != 0) && Odd(Half(Half(Half(x)))) == (x & 8 != 0)
  {
  }

  // The constant is the generator without its highest term, turned round.
  lemma RegOfPoly()
    ensures Reg(POLY) == GENERATOR - {32}
  {
    hide Odd, Halves;
    HalvesNone(POLY);
    FourBits(POLY, 0, 0x82F6_3B78);
    FourBits(POLY, 4, 0x082F_63B7);
    FourBits(POLY, 8, 0x0082_F63B);
    FourBits(POLY, 12, 0x0008_2F63);
    FourBits(POLY, 16, 0x0000_82F6);
    FourBits(POLY, 20, 0x0000_082F);
    FourBits(POLY, 24, 0x0000_0082);
    FourBits(POLY, 28, 0x0000_0008);
  }

  lemma RegOfOnes()
    ensures Reg(ONES) == LOW
  {
    hide Odd, Halves;
    HalvesNone(ONES);
    FourBits(ONES, 0, 0xFFFF_FFFF);
    FourBits(ONES, 4, 0x0FFF_FFFF);
    FourBits(ONES, 8, 0x00FF_FFFF);
    FourBits(ONES, 12, 0x000F_FFFF);
    FourBits(ONES, 16, 0x0000_FFFF);
    FourBits(ONES, 20, 0x0000_0FFF);
    FourBits(ONES, 24, 0x0000_00FF);
    FourBits(ONES, 28, 0x0000_000F);
  }

  // ----- the division -----

  // A bit enters: the register is multiplied by x, and the generator taken off if need be.
  lemma RegFeed(crc: bv32, bit: bool)
    ensures var p := Plus(TimesX(Reg(crc)), if bit then {32} else {});
      Reg(Feed(crc, bit)) == Plus(p, if 32 in p then GENERATOR else {})
  {
    hide Odd, Half, Xor, Reg;
    RegHalf(crc);
    RegXor(Half(crc), POLY);
    RegOfPoly();
    InTimesX(Reg(crc), 31);
    RegBelow(Half(crc));
    RegBelow(Feed(crc, bit));
  }

  lemma RegBelow(x: bv32)
    ensures forall e :: e in Reg(x) ==> e < 32
  {
  }

  // What is divided once `bits` have entered.
  function Entered(bits: seq<bool>): Poly {
    if bits == [] then LOW
    else Plus(TimesX(Entered(bits[..|bits| - 1])), if bits[|bits| - 1] then {32} else {})
  }

  lemma DivideStep(crc: bv32, bits: seq<bool>, bit: bool)
    requires IsRemainder(Entered(bits), Reg(crc))
    ensures IsRemainder(Entered(bits + [bit]), Reg(Feed(crc, bit)))
  {
    hide Odd, Half, Xor, Reg, TimesX, Plus, Feed, Multiple;
    var qs :| Entered(bits) == Plus(Multiple(qs), Reg(crc));
    assert (bits + [bit])[..|bits|] == bits;
    var m, r, b := TimesX(Multiple(qs)), TimesX(Reg(crc)), if bit then {32} else {};
    TimesXPlus(Multiple(qs), Reg(crc));
    PlusSwap(m, r, b);
    RegFeed(crc, bit);
    var q := 32 in Plus(r, b);
    MultipleNext(qs, q);
    Cancel(m, Plus(r, b), if q then GENERATOR else {});
    RegBelow(Feed(crc, bit));
    assert Entered(bits + [bit]) == Plus(Multiple(qs + [q]), Reg(Feed(crc, bit)));
  }

  lemma Cancel(p: Poly, q: Poly, g: Poly)
    ensures Plus(Plus(p, g), Plus(q, g)) == Plus(p, q) && Plus(p, {}) == p && Plus(q, {}) == q
  {
  }

  // The low n bits of v, the lowest first.
  function BitsOf(v: nat, n: nat): seq<bool>
    decreases n
  {
    if n == 0 then [] else [v % 2 == 1] + BitsOf(v / 2, n - 1)
  }

  function MessageBits(msg: seq<Byte>): seq<bool> {
    if msg == [] then [] else MessageBits(msg[..|msg| - 1]) + BitsOf(msg[|msg| - 1], 8)
  }

  lemma {:induction false} DivideBits(crc: bv32, bits: seq<bool>, v: nat, n: nat)
    requires IsRemainder(Entered(bits), Reg(crc))
    ensures IsRemainder(Entered(bits + BitsOf(v, n)), Reg(FeedBits(crc, v, n)))
    decreases n
  {
    hide IsRemainder, Entered, Feed;
    if n == 0 {
      assert bits + [] == bits;
    } else {
      var bit := v % 2 == 1;
      DivideStep(crc, bits, bit);
      DivideBits(Feed(crc, bit), bits + [bit], v / 2, n - 1);
      assert bits + [bit] + BitsOf(v / 2, n - 1) == bits + ([bit] + BitsOf(v / 2, n - 1));
    }
  }

  lemma {:induction false} DivideBytes(msg: seq<Byte>)
    ensures IsRemainder(Entered(MessageBits(msg)), Reg(FeedBytes(ONES, msg)))
  {
    hide Entered, FeedBits, BitsOf;
    if msg == [] {
      RegOfOnes();
      RegBelow(ONES);
      NothingEntered();
      var p := Reg(ONES);
      assert Multiple([]) == {} && Plus({}, p) == p;
    } else {
      var rest, last := msg[..|msg| - 1], msg[|msg| - 1];
      DivideBytes(rest);
      DivideBits(FeedBytes(ONES, rest), MessageBits(rest), last, 8);
    }
  }

  lemma NothingEntered()
    ensures Entered([]) == LOW
  {
  }

  // ----- what was divided is the message -----

  lemma {:induction false} InEntered(bits: seq<bool>, e: nat)
    ensures e in Entered(bits) <==>
      e < |bits| + 32 && ((e >= 32 && bits[|bits| + 31 - e]) != (e >= |bits|))
  {
    if bits != [] {
      var rest := bits[..|bits| - 1];
      if e > 0 {
        InEntered(rest, e - 1);
        InTimesX(Entered(rest), e - 1);
      }
    }
  }

  lemma {:induction false} BitOf(v: nat, n: nat, i: nat)
    requires i < n
    ensures |BitsOf(v, n)| == n && BitsOf(v, n)[i] == ((v / Power2(i)) % 2 == 1)
    decreases n
  {
    BitsLength(v, n);
    if i > 0 {
      BitOf(v / 2, n - 1, i - 1);
      DivideTwice(v, i);
    }
  }

  lemma {:induction false} BitsLength(v: nat, n: nat)
    ensures |BitsOf(v, n)| == n
    decreases n
  {
    if n > 0 { BitsLength(v / 2, n - 1); }
  }

  lemma DivideTwice(v: nat, i: nat)
    requires i > 0
    ensures (v / 2) / Power2(i - 1) == v / Power2(i)
  {
    hide Power2;
    var p, h := Power2(i - 1), v / 2;
    var q, r := h / p, h % p;
    assert Power2(i) == 2 * p by { PowerNext(i); }
    Doubled(p, q);
    QuotientIs(v, 2 * p, q, 2 * r + v % 2);
  }

  lemma PowerNext(i: nat)
    requires i > 0
    ensures Power2(i) == 2 * Power2(i - 1)
  {
  }

  lemma Doubled(p: nat, q: nat)
    ensures (2 * p) * q == 2 * (p * q)
  {
  }

  lemma QuotientIs(v: nat, p: nat, q: nat, r: nat)
    requires v == p * q + r && r < p
    ensures v / p == q
  {
    var q' := v / p;
    assert v == p * q' + v % p;
    if q' < q { TimesLess(p, q', q); } else if q < q' { TimesLess(p, q, q'); }
  }

  lemma {:induction false} TimesLess(p: nat, a: nat, b: nat)
    requires a < b
    ensures p * a + p <= p * b
    decreases b
  {
    if a + 1 < b { TimesLess(p, a, b - 1); }
    assert p * b == p * (b - 1) + p;
  }

  lemma {:induction false} BitOfMessage(msg: seq<Byte>, j: nat)
    requires j < 8 * |msg|
    ensures |MessageBits(msg)| == 8 * |msg| && MessageBits(msg)[j] == MessageBit(msg, j)
  {
    hide BitsOf, Power2;
    var n := |msg| - 1;
    MessageLength(msg);
    MessageLength(msg[..n]);
    if j < 8 * n {
      BitOfMessage(msg[..n], j);
      assert msg[..n][j / 8] == msg[j / 8];
    } else {
      BitOf(msg[n], 8, j - 8 * n);
      assert j / 8 == n && j % 8 == j - 8 * n;
    }
  }

  lemma {:induction false} MessageLength(msg: seq<Byte>)
    ensures |MessageBits(msg)| == 8 * |msg|
  {
    if msg != [] {
      BitsLength(msg[|msg| - 1], 8);
      MessageLength(msg[..|msg| - 1]);
    }
  }

  lemma EnteredIsDividend(msg: seq<Byte>)
    ensures Entered(MessageBits(msg)) == Dividend(msg)
  {
    hide Entered, MessageBits, MessageBit;
    MessageLength(msg);
    forall e: nat ensures e in Entered(MessageBits(msg)) <==> e in Dividend(msg) {
      InEntered(MessageBits(msg), e);
      if 32 <= e < 8 * |msg| + 32 { BitOfMessage(msg, 8 * |msg| + 31 - e); }
    }
  }

  // ----- the checksum -----

  lemma {:induction false} BitOfWord(x: bv32, n: nat, i: nat)
    requires i < n
    ensures Odd(Halves(x, i)) <==> (FromBits(x, n) / Power2(i)) % 2 == 1
    decreases n
  {
    hide Odd, Half;
    if i > 0 {
      BitOfWord(Half(x), n - 1, i - 1);
      DivideTwice(FromBits(x, n), i);
    }
  }

  lemma ResidueIsReg(msg: seq<Byte>)
    ensures Residue(CrcWord(msg)) == Reg(FeedBytes(ONES, msg))
  {
    hide Reg, Xor, FeedBytes, FromBits, Power2, ResidueTerm;
    var x, y := FeedBytes(ONES, msg), Crc(msg);
    assert CrcWord(msg) == FromBits(y, 32);
    forall e: nat | e < 32 ensures ResidueTerm(CrcWord(msg), e) <==> e in Reg(x) {
      TermOf(y, e);
      assert ResidueTerm(CrcWord(msg), e) <==> e !in Reg(y);
      Complemented(x, e);
    }
    RegBelow(x);
  }

  lemma TermOf(y: bv32, e: nat)
    requires e < 32 && FromBits(y, 32) < WORD_LIMIT
    ensures ResidueTerm(FromBits(y, 32), e) <==> e !in Reg(y)
  {
    BitOfWord(y, 32, 31 - e);
  }

  lemma Complemented(x: bv32, e: nat)
    requires e < 32
    ensures e in Reg(Xor(x, ONES)) <==> e !in Reg(x)
  {
    hide Reg;
    RegXor(x, ONES);
    RegOfOnes();
  }

  /** The checksum is the remainder of the message by the generator, for every message. */
  lemma CrcIsRemainder(msg: seq<Byte>)
    ensures IsRemainder(Dividend(msg), Residue(CrcWord(msg)))
  {
    hide IsRemainder, FeedBytes;
    DivideBytes(msg);
    EnteredIsDividend(msg);
    ResidueIsReg(msg);
  }

  /** And it is fixed by that: a word that stands for the remainder is the checksum. */
  lemma CrcIsOnly(msg: seq<Byte>, w: Word)
    requires IsRemainder(Dividend(msg), Residue(w))
    ensures w == CrcWord(msg)
  {
    hide IsRemainder, CrcWord, Residue, Dividend;
    CrcIsRemainder(msg);
    OneRemainder(Dividend(msg), Residue(w), Residue(CrcWord(msg)));
    ResidueInjective(w, CrcWord(msg));
  }

  lemma ResidueInjective(v: Word, w: Word)
    requires Residue(v) == Residue(w)
    ensures v == w
  {
    forall i: nat | i < 32 ensures (v / Power2(i)) % 2 == (w / Power2(i)) % 2 {
      assert 31 - i in Residue(v) <==> (v / Power2(i)) % 2 == 0;
      assert 31 - i in Residue(w) <==> (w / Power2(i)) % 2 == 0;
    }
    Power32();
    BitsDecide(v, w, 32);
  }

  lemma {:induction false} BitsDecide(v: nat, w: nat, n: nat)
    requires v < Power2(n) && w < Power2(n)
    requires forall i: nat :: i < n ==> (v / Power2(i)) % 2 == (w / Power2(i)) % 2
    ensures v == w
    decreases n
  {
    if n > 0 {
      forall i: nat | i < n - 1 ensures (v / 2 / Power2(i)) % 2 == (w / 2 / Power2(i)) % 2 {
        DivideTwice(v, i + 1);
        DivideTwice(w, i + 1);
      }
      BitsDecide(v / 2, w / 2, n - 1);
      assert (v / Power2(0)) % 2 == (w / Power2(0)) % 2;
    }
  }

  // ----- a known checksum -----

  // One byte, bit by bit.
  lemma ByteFed(b: Byte, c0: bv32, c1: bv32, c2: bv32, c3: bv32, c4: bv32, c5: bv32, c6: bv32, c7: bv32, c8: bv32)
    requires c1 == Feed(c0, b % 2 == 1) && c2 == Feed(c1, b / 2 % 2 == 1)
    requires c3 == Feed(c2, b / 4 % 2 == 1) && c4 == Feed(c3, b / 8 % 2 == 1)
    requires c5 == Feed(c4, b / 16 % 2 == 1) && c6 == Feed(c5, b / 32 % 2 == 1)
    requires c7 == Feed(c6, b / 64 % 2 == 1) && c8 == Feed(c7, b / 128 % 2 == 1)
    ensures FeedBits(c0, b, 8) == c8
  {
    hide Feed;
    assert b / 2 / 2 == b / 4 && b / 4 / 2 == b / 8 && b / 8 / 2 == b / 16 && b / 16 / 2 == b / 32;
    assert b / 32 / 2 == b / 64 && b / 64 / 2 == b / 128;
    assert FeedBits(c7, b / 128, 1) == c8;
    assert FeedBits(c6, b / 64, 2) == c8;
    assert FeedBits(c5, b / 32, 3) == c8;
    assert FeedBits(c4, b / 16, 4) == c8;
    assert FeedBits(c3, b / 8, 5) == c8;
    assert FeedBits(c2, b / 4, 6) == c8;
    assert FeedBits(c1, b / 2, 7) == c8;
  }

  lemma FeedOne(msg: seq<Byte>, b: Byte)
    ensures FeedBytes(ONES, msg + [b]) == FeedBits(FeedBytes(ONES, msg), b, 8)
  {
    assert (msg + [b])[..|msg|] == msg;
  }

  // The digits from 1 to 9 give the checksum by which CRC-32C is known.
  lemma KnownChecksum()
    ensures Crc([0x31, 0x32, 0x33, 0x34, 0x35, 0x36, 0x37, 0x38, 0x39]) == 0xE306_9283
  {
    hide FeedBits, FeedBytes;
    SixDigits();
    ByteFed(0x37, 0xBECA_8E79, 0x5F65_473C, 0xAD44_98E6, 0xD454_770B, 0xE8DC_00FD,
            0x746E_007E, 0xB8C1_3B47, 0xDE96_A6DB, 0xEDBD_6815);
    FeedOne([0x31, 0x32, 0x33, 0x34, 0x35, 0x36], 0x37);
    assert [0x31, 0x32, 0x33, 0x34, 0x35, 0x36] + [0x37] == [0x31, 0x32, 0x33, 0x34, 0x35, 0x36, 0x37];
    ByteFed(0x38, 0xEDBD_6815, 0xF428_8F72, 0x7A14_47B9, 0xBFFC_18A4, 0xDD08_372A,
            0xEC72_20ED, 0x7639_1076, 0x3B1C_883B, 0x9F78_7F65);
    FeedOne([0x31, 0x32, 0x33, 0x34, 0x35, 0x36, 0x37], 0x38);
    assert [0x31, 0x32, 0x33, 0x34, 0x35, 0x36, 0x37] + [0x38] == [0x31, 0x32, 0x33, 0x34, 0x35, 0x36, 0x37, 0x38];
    ByteFed(0x39, 0x9F78_7F65, 0x4FBC_3FB2, 0x27DE_1FD9, 0x9119_3494, 0xCA7A_A132,
            0xE7CB_6BE1, 0x73E5_B5F0, 0x39F2_DAF8, 0x1CF9_6D7C);
    FeedOne([0x31, 0x32, 0x33, 0x34, 0x35, 0x36, 0x37, 0x38], 0x39);
    assert [0x31, 0x32, 0x33, 0x34, 0x35, 0x36, 0x37, 0x38] + [0x39]
        == [0x31, 0x32, 0x33, 0x34, 0x35, 0x36, 0x37, 0x38, 0x39];
  }

  lemma SixDigits()
    ensures FeedBytes(ONES, [0x31, 0x32, 0x33, 0x34, 0x35, 0x36]) == 0xBECA_8E79
  {
    hide FeedBits, FeedBytes;
    ThreeDigits();
    ByteFed(0x34, 0xEF84_D04D, 0xF534_535E, 0x7A9A_29AF, 0x3D4D_14D7, 0x9C50_B113,
            0x4E28_5889, 0x2714_2C44, 0x138A_1622, 0x09C5_0B11);
    FeedOne([0x31, 0x32, 0x33], 0x34);
    assert [0x31, 0x32, 0x33] + [0x34] == [0x31, 0x32, 0x33, 0x34];
    ByteFed(0x35, 0x09C5_0B11, 0x04E2_8588, 0x0271_42C4, 0x83CE_9A1A, 0x41E7_4D0D,
            0x20F3_A686, 0x928F_E83B, 0xCBB1_CF65, 0xE72E_DCCA);
    FeedOne([0x31, 0x32, 0x33, 0x34], 0x35);
    assert [0x31, 0x32, 0x33, 0x34] + [0x35] == [0x31, 0x32, 0x33, 0x34, 0x35];
    ByteFed(0x36, 0xE72E_DCCA, 0x7397_6E65, 0x39CB_B732, 0x9E13_E0E1, 0xCDFF_CB08,
            0xE409_DEFC, 0xF0F2_D406, 0x7879_6A03, 0xBECA_8E79);
    FeedOne([0x31, 0x32, 0x33, 0x34, 0x35], 0x36);
    assert [0x31, 0x32, 0x33, 0x34, 0x35] + [0x36] == [0x31, 0x32, 0x33, 0x34, 0x35, 0x36];
  }

  lemma ThreeDigits()
    ensures FeedBytes(ONES, [0x31, 0x32, 0x33]) == 0xEF84_D04D
  {
    hide FeedBits, FeedBytes;
    NoneFed();
    ByteFed(0x31, 0xFFFF_FFFF, 0x7FFF_FFFF, 0xBD09_C487, 0xDC72_D93B, 0xECCF_57E5,
            0x7667_ABF2, 0xB9C5_EE81, 0xDE14_CC38, 0x6F0A_661C);
    FeedOne([], 0x31);
    assert [] + [0x31] == [0x31];
    ByteFed(0x32, 0x6F0A_661C, 0x3785_330E, 0x9934_A2FF, 0xCE6C_6A07, 0xE5C0_0E7B,
            0x72E0_073D, 0x3970_039E, 0x1CB8_01CF, 0x8CAA_3B9F);
    FeedOne([0x31], 0x32);
    assert [0x31] + [0x32] == [0x31, 0x32];
    ByteFed(0x33, 0x8CAA_3B9F, 0x4655_1DCF, 0x232A_8EE7, 0x9363_7C0B, 0xCB47_857D,
            0x65A3_C2BE, 0xB027_DA27, 0xDAE5_D66B, 0xEF84_D04D);
    FeedOne([0x31, 0x32], 0x33);
    assert [0x31, 0x32] + [0x33] == [0x31, 0x32, 0x33];
  }

  lemma NoneFed()
    ensures FeedBytes(ONES, []) == ONES
  {
  }
}
