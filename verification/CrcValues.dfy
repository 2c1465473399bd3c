/** The checksums by value: their residues, for every message, and their check values. Registers are computed as machine
    words, which are tied to the arithmetic definition bit by bit. */
module CrcValues {
  import opened Bytes
  import opened Crc

  // ------------------------------------------------------------- machine words

  function Low(v: bv32): (b: nat)
    ensures b < 2
  {
    if v & 1 == 1 then 1 else 0
  }

  function Half(v: bv32): bv32 { v >> 1 }

  function Both(x: bv32, y: bv32): bv32 { x ^ y }

  /** The number in the k low-order bits of a word. */
  function Num(v: bv32, k: nat): nat
    decreases k
  {
    if k == 0 then 0 else Low(v) + 2 * Num(Half(v), k - 1)
  }

  /** One shift of the register, on words. */
  function Next(p: bv32, v: bv32): bv32 { if Low(v) == 1 then Both(Half(v), p) else Half(v) }

  lemma Parts(b: nat, n: nat)
    requires b < 2
    ensures (b + 2 * n) % 2 == b && (b + 2 * n) / 2 == n
  {
  }

  lemma NumStep(x: bv32, k: nat)
    requires k > 0
    ensures Num(x, k) == Low(x) + 2 * Num(Half(x), k - 1)
    ensures Num(x, k) % 2 == Low(x) && Num(x, k) / 2 == Num(Half(x), k - 1)
  {
    hide Low, Half;
    Parts(Low(x), Num(Half(x), k - 1));
  }

  lemma NumNone(x: bv32)
    ensures Num(x, 0) == 0
  {
  }

  lemma BothParts(x: bv32, y: bv32)
    ensures (Low(x) + Low(y)) % 2 == Low(Both(x, y)) && Half(Both(x, y)) == Both(Half(x), Half(y))
  {
  }

  lemma {:induction false} XorNum(x: bv32, y: bv32, k: nat)
    ensures Xor(k, Num(x, k), Num(y, k)) == Num(Both(x, y), k)
    decreases k
  {
    hide Xor, Pow2, Num, Low, Half, Both;
    if k == 0 {
      XorNone(Num(x, 0), Num(y, 0));
      NumNone(Both(x, y));
    } else {
      XorUnfolds(k, Num(x, k), Num(y, k));
      NumStep(x, k);
      NumStep(y, k);
      XorNum(Half(x), Half(y), k - 1);
      BothParts(x, y);
      NumStep(Both(x, y), k);
    }
  }

  /** A word whose bits from k on are clear is no larger with one bit more. */
  lemma {:induction false} NumWider(v: bv32, k: nat)
    requires Low(Halves(v, k)) == 0
    ensures Num(v, k + 1) == Num(v, k)
    decreases k
  {
    hide Low, Half, Num;
    NumStep(v, k + 1);
    if k == 0 {
      NumNone(v);
      NumNone(Half(v));
    } else {
      NumStep(v, k);
      NumWider(Half(v), k - 1);
    }
  }

  function Halves(v: bv32, k: nat): bv32
    decreases k
  {
    if k == 0 then v else Halves(Half(v), k - 1)
  }

  function Half8(v: bv32): bv32 { Half(Half(Half(Half(Half(Half(Half(Half(v)))))))) }

  lemma Halves8(v: bv32, k: nat)
    ensures Halves(v, k + 8) == Halves(Half8(v), k)
  {
    hide Half;
    var v2, v4, v6 := Half(Half(v)), Half(Half(Half(Half(v)))), Half(Half(Half(Half(Half(Half(v))))));
    assert Halves(v, k + 8) == Halves(v2, k + 6);
    assert Halves(v2, k + 6) == Halves(v4, k + 4);
    assert Halves(v4, k + 4) == Halves(v6, k + 2);
    assert Halves(v6, k + 2) == Halves(Half(Half(v6)), k);
  }

  /** After 32 halvings nothing is left of a word. */
  lemma NothingLeft(v: bv32)
    ensures Halves(v, 32) == 0
  {
    hide Half8, Halves;
    Halves8(v, 24);
    Halves8(Half8(v), 16);
    Halves8(Half8(Half8(v)), 8);
    Halves8(Half8(Half8(Half8(v))), 0);
    assert Half8(Half8(Half8(Half8(v)))) == 0 by { Half8Four(v); }
    assert Halves(0, 0) == 0 by { NoHalves(0); }
  }

  lemma NoHalves(v: bv32)
    ensures Halves(v, 0) == v
  {
  }

  lemma Half8Four(v: bv32)
    ensures Half8(Half8(Half8(Half8(v)))) == 0
  {
    assert forall x: bv32 {:trigger Half8(x)} :: Half8(x) == x >> 8;
  }

  lemma TopClear(v: bv32)
    ensures Num(Half(v), 31) == Num(Half(v), 32)
  {
    hide Half, Num;
    NothingLeft(v);
    NumWider(Half(v), 31);
  }

  // ------------------------------------------------------------- the register

  lemma {:induction false} NumBound(v: bv32, k: nat)
    ensures Num(v, k) < Pow2(k)
    decreases k
  {
    hide Low, Half;
    if k > 0 { NumBound(Half(v), k - 1); }
  }

  lemma WordBound(v: bv32)
    ensures Num(v, 32) < 0x1_0000_0000
  {
    hide Num;
    NumBound(v, 32);
    Pow2Word();
  }

  lemma NextNum(p: bv32, v: bv32)
    ensures Num(p, 32) < 0x1_0000_0000 && Num(v, 32) < 0x1_0000_0000
    ensures Shift(Num(p, 32), Num(v, 32)) == Num(Next(p, v), 32)
  {
    hide Num, Xor, Pow2, Low, Half, Both;
    WordBound(p);
    WordBound(v);
    NumStep(v, 32);
    TopClear(v);
    XorNum(Half(v), p, 32);
  }

  function Nexts(p: bv32, v: bv32, n: nat): bv32
    decreases n
  {
    if n == 0 then v else Nexts(p, Next(p, v), n - 1)
  }

  lemma {:induction false} ShiftNum(p: bv32, v: bv32, n: nat)
    ensures Num(p, 32) < 0x1_0000_0000 && Num(v, 32) < 0x1_0000_0000
    ensures ShiftBits(Num(p, 32), Num(v, 32), n) == Num(Nexts(p, v, n), 32)
    decreases n
  {
    hide Num, Xor, Pow2, Next;
    NextNum(p, v);
    if n > 0 { ShiftNum(p, Next(p, v), n - 1); }
  }

  function Next8(p: bv32, v: bv32): bv32 {
    Next(p, Next(p, Next(p, Next(p, Next(p, Next(p, Next(p, Next(p, v))))))))
  }

  lemma Nexts8(p: bv32, v: bv32, n: nat)
    ensures Nexts(p, v, n + 8) == Nexts(p, Next8(p, v), n)
  {
    hide Next;
    var v2 := Next(p, Next(p, v));
    var v4 := Next(p, Next(p, v2));
    var v6 := Next(p, Next(p, v4));
    assert Nexts(p, v, n + 8) == Nexts(p, v2, n + 6);
    assert Nexts(p, v2, n + 6) == Nexts(p, v4, n + 4);
    assert Nexts(p, v4, n + 4) == Nexts(p, v6, n + 2);
  }

  lemma Nexts32(p: bv32, v: bv32)
    ensures Nexts(p, v, 32) == Next8(p, Next8(p, Next8(p, Next8(p, v))))
  {
    hide Next8, Nexts;
    Nexts8(p, v, 24);
    Nexts8(p, Next8(p, v), 16);
    Nexts8(p, Next8(p, Next8(p, v)), 8);
    Nexts8(p, Next8(p, Next8(p, Next8(p, v))), 0);
    NoNexts(p, Next8(p, Next8(p, Next8(p, Next8(p, v)))));
  }

  lemma NoNexts(p: bv32, v: bv32)
    ensures Nexts(p, v, 0) == v
  {
  }

  // ----------------------------------------------------------------- constants

  function LowByte(v: bv32): nat {
    var v2, v4, v6 := Half(Half(v)), Half(Half(Half(Half(v)))), Half(Half(Half(Half(Half(Half(v))))));
    Low(v) + 2 * Low(Half(v)) + 4 * Low(v2) + 8 * Low(Half(v2)) + 16 * Low(v4) + 32 * Low(Half(v4))
    + 64 * Low(v6) + 128 * Low(Half(v6))
  }

  lemma NumTwo(v: bv32, k: nat)
    ensures Num(v, k + 2) == Low(v) + 2 * Low(Half(v)) + 4 * Num(Half(Half(v)), k)
  {
    hide Low, Half, Num;
    NumStep(v, k + 2);
    NumStep(Half(v), k + 1);
  }

  lemma NumByte(v: bv32, k: nat)
    ensures Num(v, k + 8) == LowByte(v) + 0x100 * Num(Half8(v), k)
  {
    hide Low, Half, Num;
    var v2, v4, v6 := Half(Half(v)), Half(Half(Half(Half(v)))), Half(Half(Half(Half(Half(Half(v))))));
    NumTwo(v, k + 6);
    NumTwo(v2, k + 4);
    NumTwo(v4, k + 2);
    NumTwo(v6, k);
  }

  /** The number in a word, byte by byte. */
  lemma NumValue(v: bv32)
    ensures Num(v, 32) == LowByte(v) + 0x100 * LowByte(Half8(v)) + 0x1_0000 * LowByte(Half8(Half8(v)))
                          + 0x100_0000 * LowByte(Half8(Half8(Half8(v))))
  {
    hide LowByte, Num, Half8;
    NumByte(v, 24);
    NumByte(Half8(v), 16);
    NumByte(Half8(Half8(v)), 8);
    NumByte(Half8(Half8(Half8(v))), 0);
    NumNone(Half8(Half8(Half8(Half8(v)))));
  }

  lemma Ieee()
    ensures Num(0xedb8_8320, 32) == IEEE
  {
    hide Num;
    NumValue(0xedb8_8320);
  }

  lemma Castagnoli()
    ensures Num(0x82f6_3b78, 32) == CASTAGNOLI
  {
    hide Num;
    NumValue(0x82f6_3b78);
  }

  lemma Ones()
    ensures Num(0xffff_ffff, 32) == U32_MAX
  {
    hide Num;
    NumValue(0xffff_ffff);
  }

  // ------------------------------------------------------------------- residues

  /** A word and its complement have all bits between them. */
  lemma {:induction false} XorComplement(k: nat, a: nat)
    requires a < Pow2(k)
    ensures Xor(k, a, Pow2(k) - 1 - a) == Pow2(k) - 1
  {
    if k > 0 { XorComplement(k - 1, a / 2); }
  }

  /** Feeding the register its own complement leaves a constant. */
  lemma OwnComplement(poly: u32, c: u32)
    ensures Crc.Raw(poly, c, ToLE(Not32(c), 4)) == ShiftBits(poly, U32_MAX, 32)
  {
    hide Crc.Raw, ShiftBits, Xor, Pow2, ToLE, FromLE;
    Pow2Top();
    XorComplement(32, c);
    Pow256Values();
    FromToLE(Not32(c), 4);
    RawWord(poly, c, ToLE(Not32(c), 4));
  }

  lemma IeeeResidue()
    ensures ShiftBits(IEEE, U32_MAX, 32) == 0xdebb_20e3
  {
    hide Num, Nexts, ShiftBits;
    Ieee();
    Ones();
    ShiftNum(0xedb8_8320, 0xffff_ffff, 32);
    Nexts32(0xedb8_8320, 0xffff_ffff);
    NumValue(0xdebb_20e3);
  }

  lemma CastagnoliResidue()
    ensures ShiftBits(CASTAGNOLI, U32_MAX, 32) == 0xb798_b438
  {
    hide Num, Nexts, ShiftBits;
    Castagnoli();
    Ones();
    ShiftNum(0x82f6_3b78, 0xffff_ffff, 32);
    Nexts32(0x82f6_3b78, 0xffff_ffff);
    NumValue(0xb798_b438);
  }

  /** For every message: the register that has taken in the message and its own IEEE checksum holds the residue of
      CRC-32. */
  lemma ChecksumResidue(b: seq<u8>)
    ensures Crc.Raw(0xedb8_8320, 0xffff_ffff, b + ToLE(ChecksumIeee(b), 4)) == 0xdebb_20e3
  {
    hide Crc.Raw, ShiftBits, ToLE;
    RawConcat(IEEE, U32_MAX, b, ToLE(ChecksumIeee(b), 4));
    OwnComplement(IEEE, Crc.Raw(IEEE, U32_MAX, b));
    IeeeResidue();
  }

  /** The same for the Castagnoli register inverted at the end, with the residue of CRC-32C. */
  lemma InvertedResidue(b: seq<u8>)
    ensures Crc.Raw(0x82f6_3b78, 0xffff_ffff, b + ToLE(Not32(Crc.Raw(CASTAGNOLI, U32_MAX, b)), 4)) == 0xb798_b438
  {
    hide Crc.Raw, ShiftBits, ToLE;
    RawConcat(CASTAGNOLI, U32_MAX, b, ToLE(Not32(Crc.Raw(CASTAGNOLI, U32_MAX, b)), 4));
    OwnComplement(CASTAGNOLI, Crc.Raw(CASTAGNOLI, U32_MAX, b));
    CastagnoliResidue();
  }

  // --------------------------------------------------------------- check values

  /** The bytes of "123456789". */
  const DIGITS: seq<u8> := [0x31, 0x32, 0x33, 0x34, 0x35, 0x36, 0x37, 0x38, 0x39]

  lemma WordNum(p: bv32, v: bv32, w: bv32, bytes: seq<u8>)
    requires |bytes| <= 4 && FromLE(bytes) == Num(w, 32)
    ensures Num(p, 32) < 0x1_0000_0000 && Num(v, 32) < 0x1_0000_0000
    ensures Crc.Raw(Num(p, 32), Num(v, 32), bytes) == Num(Nexts(p, Both(v, w), 8 * |bytes|), 32)
  {
    hide Crc.Raw, Num, Nexts, ShiftBits, Xor, FromLE, Both;
    WordBound(p);
    WordBound(v);
    RawWord(Num(p, 32), Num(v, 32), bytes);
    XorNum(v, w, 32);
    ShiftNum(p, Both(v, w), 8 * |bytes|);
  }

  function DigitsWord(p: bv32): bv32 {
    Nexts(p, Both(Nexts(p, Both(Nexts(p, Both(0xffff_ffff, 0x3433_3231), 32), 0x3837_3635), 32), 0x39), 8)
  }

  lemma FirstDigits()
    ensures FromLE(DIGITS[..4]) == Num(0x3433_3231, 32)
  {
    hide Num;
    NumValue(0x3433_3231);
    var b := [0x31, 0x32, 0x33, 0x34];
    assert DIGITS[..4] == b;
    assert b[1..] == [0x32, 0x33, 0x34] && b[1..][1..] == [0x33, 0x34] && b[1..][1..][1..] == [0x34];
  }

  lemma MoreDigits()
    ensures FromLE(DIGITS[4..8]) == Num(0x3837_3635, 32)
  {
    hide Num;
    NumValue(0x3837_3635);
    var b := [0x35, 0x36, 0x37, 0x38];
    assert DIGITS[4..8] == b;
    assert b[1..] == [0x36, 0x37, 0x38] && b[1..][1..] == [0x37, 0x38] && b[1..][1..][1..] == [0x38];
  }

  lemma LastDigit()
    ensures FromLE(DIGITS[8..]) == Num(0x39, 32)
  {
    hide Num;
    NumValue(0x39);
    assert DIGITS[8..] == [0x39];
  }

  lemma DigitsRaw(p: bv32)
    ensures Num(p, 32) < 0x1_0000_0000 && Crc.Raw(Num(p, 32), U32_MAX, DIGITS) == Num(DigitsWord(p), 32)
  {
    hide Crc.Raw, Num, Nexts, Next8, Both, FromLE;
    WordBound(p);
    Ones();
    FirstDigits();
    MoreDigits();
    LastDigit();
    var v1 := Nexts(p, Both(0xffff_ffff, 0x3433_3231), 32);
    var v2 := Nexts(p, Both(v1, 0x3837_3635), 32);
    WordNum(p, 0xffff_ffff, 0x3433_3231, DIGITS[..4]);
    WordNum(p, v1, 0x3837_3635, DIGITS[4..8]);
    WordNum(p, v2, 0x39, DIGITS[8..]);
    RawThrough(Num(p, 32), U32_MAX, DIGITS, 4, 4);
  }

  lemma IeeeWords()
    ensures Nexts(0xedb8_8320, 0xcbcc_cdce, 32) == 0x641c_1f5c
  {
    hide Nexts;
    Nexts32(0xedb8_8320, 0xcbcc_cdce);
  }

  lemma IeeeMoreWords()
    ensures Nexts(0xedb8_8320, 0x5c2b_2969, 32) == 0x651f_2550
  {
    hide Nexts;
    Nexts32(0xedb8_8320, 0x5c2b_2969);
  }

  lemma IeeeDigits()
    ensures DigitsWord(0xedb8_8320) == 0x340b_c6d9
  {
    hide Nexts;
    IeeeWords();
    IeeeMoreWords();
    Nexts8(0xedb8_8320, 0x651f_2569, 0);
    NoNexts(0xedb8_8320, Next8(0xedb8_8320, 0x651f_2569));
  }

  lemma CastagnoliWords()
    ensures Nexts(0x82f6_3b78, 0xcbcc_cdce, 32) == 0x09c5_0b11
  {
    hide Nexts;
    Nexts32(0x82f6_3b78, 0xcbcc_cdce);
  }

  lemma CastagnoliMoreWords()
    ensures Nexts(0x82f6_3b78, 0x31f2_3d24, 32) == 0x9f78_7f65
  {
    hide Nexts;
    Nexts32(0x82f6_3b78, 0x31f2_3d24);
  }

  lemma CastagnoliDigits()
    ensures DigitsWord(0x82f6_3b78) == 0x1cf9_6d7c
  {
    hide Nexts;
    CastagnoliWords();
    CastagnoliMoreWords();
    Nexts8(0x82f6_3b78, 0x9f78_7f5c, 0);
    NoNexts(0x82f6_3b78, Next8(0x82f6_3b78, 0x9f78_7f5c));
  }

  /** The check value of CRC-32. */
  lemma IeeeCheck()
    ensures ChecksumIeee(DIGITS) == 0xcbf4_3926
  {
    hide Crc.Raw, Num, DigitsWord;
    Ieee();
    DigitsRaw(0xedb8_8320);
    IeeeDigits();
    NumValue(0x340b_c6d9);
  }

  /** The check value of CRC-32C. */
  lemma CastagnoliCheck()
    ensures Not32(Crc.Raw(CASTAGNOLI, U32_MAX, DIGITS)) == 0xe306_9283
  {
    hide Crc.Raw, Num, DigitsWord;
    Castagnoli();
    DigitsRaw(0x82f6_3b78);
    CastagnoliDigits();
    NumValue(0x1cf9_6d7c);
  }
}
