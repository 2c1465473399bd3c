/** CRC-32 as a fold over bytes: the reflected, bit-serial form, with the IEEE
    polynomial (partition labels) and the Castagnoli polynomial (wiper). */
module Crc {
  import opened Bytes

  const IEEE: u32 := 0xedb8_8320
  const CASTAGNOLI: u32 := 0x82f6_3b78

  function Pow2(k: nat): nat { if k == 0 then 1 else 2 * Pow2(k - 1) }

  /** Exclusive or of the k low-order bits. */
  function Xor(k: nat, a: nat, b: nat): (r: nat)
    ensures r < Pow2(k)
  {
    if k == 0 then 0 else (a % 2 + b % 2) % 2 + 2 * Xor(k - 1, a / 2, b / 2)
  }

  lemma Pow2Word()
    ensures Pow2(8) == 0x100 && Pow2(32) == 0x1_0000_0000
  {
    assert Pow2(8) == 0x100;
    assert Pow2(16) == 256 * Pow2(8) by { Pow2Add(8, 8); }
    assert Pow2(32) == Pow2(16) * Pow2(16) by { Pow2Add(16, 16); }
  }

  lemma {:induction false} Pow2Add(a: nat, b: nat)
    ensures Pow2(a + b) == Pow2(a) * Pow2(b)
  {
    if a > 0 {
      Pow2Add(a - 1, b);
      assert 2 * (Pow2(a - 1) * Pow2(b)) == (2 * Pow2(a - 1)) * Pow2(b);
    }
  }

  function Xor32(a: u32, b: u32): u32 { Pow2Word(); Xor(32, a, b) }

  /** Bitwise complement of a 32-bit word. */
  function Not32(v: u32): u32 { U32_MAX - v }

  function ShiftBits(poly: u32, v: u32, n: nat): u32
    decreases n, v
  {
    if n == 0 then v
    else ShiftBits(poly, if v % 2 == 1 then Xor32(v / 2, poly) else v / 2, n - 1)
  }

  function Step(poly: u32, crc: u32, b: u8): u32 {
    ShiftBits(poly, Xor32(crc, b), 8)
  }

  /** The register after feeding it bytes, without inversion on the way in or out. */
  function Raw(poly: u32, crc: u32, bytes: seq<u8>): u32
    decreases |bytes|
  {
    if bytes == [] then crc else Raw(poly, Step(poly, crc, bytes[0]), bytes[1..])
  }

  /** Feeding a block in two parts is feeding it whole. */
  lemma {:induction false} RawConcat(poly: u32, crc: u32, a: seq<u8>, b: seq<u8>)
    ensures Raw(poly, crc, a + b) == Raw(poly, Raw(poly, crc, a), b)
    decreases |a|
  {
    if a == [] {
      assert a + b == b;
    } else {
      assert (a + b)[1..] == a[1..] + b;
      RawConcat(poly, Step(poly, crc, a[0]), a[1..], b);
    }
  }

  /** One write to an IEEE digest: inverted before and after. */
  function Update(crc: u32, bytes: seq<u8>): u32 {
    Not32(Raw(IEEE, Not32(crc), bytes))
  }

  function ChecksumIeee(bytes: seq<u8>): u32 { Update(0, bytes) }

  lemma UpdateConcat(crc: u32, a: seq<u8>, b: seq<u8>)
    ensures Update(crc, a + b) == Update(Update(crc, a), b)
  {
    RawConcat(IEEE, Not32(crc), a, b);
  }

  // ---------------------------------------------------------------- detection

  lemma {:induction false} XorCommutes(k: nat, a: nat, b: nat)
    ensures Xor(k, a, b) == Xor(k, b, a)
  {
    if k > 0 { XorCommutes(k - 1, a / 2, b / 2); }
  }

  lemma {:induction false} XorCancels(k: nat, a: nat, b: nat, c: nat)
    requires a < Pow2(k) && b < Pow2(k) && Xor(k, a, c) == Xor(k, b, c)
    ensures a == b
  {
    if k > 0 {
      BitCancels(a % 2, b % 2, c % 2, Xor(k - 1, a / 2, c / 2), Xor(k - 1, b / 2, c / 2));
      XorCancels(k - 1, a / 2, b / 2, c / 2);
    }
  }

  lemma BitCancels(p: nat, q: nat, r: nat, x: nat, y: nat)
    requires p < 2 && q < 2 && r < 2 && (p + r) % 2 + 2 * x == (q + r) % 2 + 2 * y
    ensures p == q && x == y
  {
    assert (p + r) % 2 == (q + r) % 2;
  }

  /** The top bit of an exclusive or with a word that has it set. */
  lemma {:induction false} XorTop(k: nat, a: nat, b: nat)
    requires k >= 1 && a < Pow2(k - 1) && Pow2(k - 1) <= b < Pow2(k)
    ensures Xor(k, a, b) >= Pow2(k - 1)
  {
    if k > 1 { XorTop(k - 1, a / 2, b / 2); }
  }

  lemma Pow2Top()
    ensures Pow2(31) == 0x8000_0000 && Pow2(32) == 0x1_0000_0000
  {
    hide Xor;
    Pow2Word();
    assert Pow2(32) == 2 * Pow2(31);
  }

  /** With the top bit of the polynomial set, as in both polynomials used, no two registers shift alike. */
  lemma {:induction false} ShiftInjective(poly: u32, v: u32, w: u32, n: nat)
    requires poly >= 0x8000_0000 && ShiftBits(poly, v, n) == ShiftBits(poly, w, n)
    ensures v == w
    decreases n
  {
    if n > 0 {
      hide Xor, Pow2;
      Pow2Top();
      var v', w' := if v % 2 == 1 then Xor32(v / 2, poly) else v / 2, if w % 2 == 1 then Xor32(w / 2, poly) else w / 2;
      ShiftInjective(poly, v', w', n - 1);
      XorTop(32, v / 2, poly);
      XorTop(32, w / 2, poly);
      if v % 2 == w % 2 == 1 { XorCancels(32, v / 2, w / 2, poly); }
    }
  }

  lemma {:induction false} RawInjective(poly: u32, c: u32, c': u32, bytes: seq<u8>)
    requires poly >= 0x8000_0000 && Raw(poly, c, bytes) == Raw(poly, c', bytes)
    ensures c == c'
    decreases |bytes|
  {
    hide Step;
    if bytes != [] {
      RawInjective(poly, Step(poly, c, bytes[0]), Step(poly, c', bytes[0]), bytes[1..]);
      StepInjective(poly, c, c', bytes[0]);
    }
  }

  lemma StepInjective(poly: u32, c: u32, c': u32, b: u8)
    requires poly >= 0x8000_0000 && Step(poly, c, b) == Step(poly, c', b)
    ensures c == c'
  {
    hide Xor, Pow2, ShiftBits;
    Pow2Top();
    ShiftInjective(poly, Xor32(c, b), Xor32(c', b), 8);
    XorCancels(32, c, c', b);
  }

  lemma {:induction false} XorAssociates(k: nat, a: nat, b: nat, c: nat)
    ensures Xor(k, Xor(k, a, b), c) == Xor(k, a, Xor(k, b, c))
  {
    hide Xor, Pow2;
    if k == 0 {
      XorNone(Xor(0, a, b), c);
      XorNone(a, Xor(0, b, c));
    } else {
      XorUnfoldsTwice(k, a, b, c);
      XorUnfoldsTwice(k, b, c, a);
      XorCommutes(k, a, Xor(k, b, c));
      XorCommutes(k - 1, a / 2, Xor(k - 1, b / 2, c / 2));
      XorAssociates(k - 1, a / 2, b / 2, c / 2);
      BitAssociates(a % 2, b % 2, c % 2);
    }
  }

  lemma XorNone(a: nat, b: nat)
    ensures Xor(0, a, b) == 0
  {
  }

  lemma XorUnfoldsTwice(k: nat, a: nat, b: nat, c: nat)
    requires k > 0
    ensures Xor(k, Xor(k, a, b), c)
            == ((a % 2 + b % 2) % 2 + c % 2) % 2 + 2 * Xor(k - 1, Xor(k - 1, a / 2, b / 2), c / 2)
  {
    hide Xor;
    BitParts(k, a, b);
    XorUnfolds(k, Xor(k, a, b), c);
  }

  lemma XorUnfolds(k: nat, a: nat, b: nat)
    requires k > 0
    ensures Xor(k, a, b) == (a % 2 + b % 2) % 2 + 2 * Xor(k - 1, a / 2, b / 2)
  {
  }

  lemma BitParts(k: nat, a: nat, b: nat)
    requires k > 0
    ensures Xor(k, a, b) % 2 == (a % 2 + b % 2) % 2 && Xor(k, a, b) / 2 == Xor(k - 1, a / 2, b / 2)
  {
  }

  lemma BitAssociates(p: nat, q: nat, r: nat)
    requires p < 2 && q < 2 && r < 2
    ensures ((p + q) % 2 + r) % 2 == ((q + r) % 2 + p) % 2
  {
  }

  /** Words without a bit in common add up. */
  lemma {:induction false} XorAdds(k: nat, n: nat, x: nat, y: nat)
    requires n <= k && x < Pow2(n) && Pow2(n) * y >= 0 && x + Pow2(n) * y < Pow2(k)
    ensures Xor(k, x, Pow2(n) * y) == x + Pow2(n) * y
    decreases n
  {
    if n == 0 {
      XorZero(k, y);
    } else {
      hide Xor;
      var z := Pow2(n - 1) * y;
      assert Pow2(n) * y == 2 * z;
      XorUnfolds(k, x, 2 * z);
      XorAdds(k - 1, n - 1, x / 2, y);
    }
  }

  lemma {:induction false} XorZero(k: nat, y: nat)
    requires y < Pow2(k)
    ensures Xor(k, 0, y) == y
  {
    if k > 0 { XorZero(k - 1, y / 2); }
  }

  /** One shift of the register. */
  function Shift(poly: u32, v: u32): u32 { if v % 2 == 1 then Xor32(v / 2, poly) else v / 2 }

  lemma ShiftOne(poly: u32, v: u32, y: nat)
    requires 2 * y < 0x1_0000_0000
    ensures Shift(poly, Xor32(v, 2 * y)) == Xor32(Shift(poly, v), y)
  {
    hide Xor, Pow2;
    BitParts(32, v, 2 * y);
    XorWider(v / 2, y);
    if v % 2 == 1 {
      XorAssociates(32, v / 2, y, poly);
      XorCommutes(32, y, poly);
      XorAssociates(32, v / 2, poly, y);
    }
  }

  lemma XorWider(a: nat, b: nat)
    requires a < 0x8000_0000 && b < 0x8000_0000
    ensures Xor(31, a, b) == Xor(32, a, b)
  {
    Pow2Top();
    XorWide(31, a, b);
  }

  lemma {:induction false} XorWide(k: nat, a: nat, b: nat)
    requires a < Pow2(k) && b < Pow2(k)
    ensures Xor(k + 1, a, b) == Xor(k, a, b)
  {
    if k > 0 { XorWide(k - 1, a / 2, b / 2); }
  }

  /** Bits that are still n shifts away pass through unchanged. */
  lemma {:induction false} ShiftPasses(poly: u32, v: u32, y: nat, n: nat)
    requires Pow2(n) * y < 0x1_0000_0000
    ensures y < 0x1_0000_0000 && ShiftBits(poly, Xor32(v, Pow2(n) * y), n) == Xor32(ShiftBits(poly, v, n), y)
    decreases n
  {
    if n > 0 {
      hide Xor;
      assert Pow2(n) * y == 2 * (Pow2(n - 1) * y);
      ShiftOne(poly, v, Pow2(n - 1) * y);
      ShiftPasses(poly, Shift(poly, v), y, n - 1);
    }
  }

  lemma {:induction false} ShiftTwice(poly: u32, v: u32, m: nat, n: nat)
    ensures ShiftBits(poly, ShiftBits(poly, v, m), n) == ShiftBits(poly, v, m + n)
    decreases m
  {
    if m > 0 { ShiftTwice(poly, Shift(poly, v), m - 1, n); }
  }

  lemma WordFits(w: seq<u8>)
    requires |w| <= 4
    ensures FromLE(w) < 0x1_0000_0000
    ensures w != [] ==> 0x100 * FromLE(w[1..]) < 0x1_0000_0000
  {
    hide FromLE;
    Pow256Values();
    assert Pow256(4) == 0x100 * Pow256(3);
    if |w| > 0 { Pow256Order(|w| - 1, 3); }
    Pow256Order(|w|, 4);
  }

  lemma {:induction false} Pow256Order(m: nat, n: nat)
    requires m <= n
    ensures Pow256(m) <= Pow256(n)
  {
    if m < n { Pow256Order(m, n - 1); }
  }

  /** Up to four bytes enter the register as one word. */
  lemma {:induction false} RawWord(poly: u32, c: u32, w: seq<u8>)
    requires |w| <= 4
    ensures FromLE(w) < 0x1_0000_0000 && Raw(poly, c, w) == ShiftBits(poly, Xor32(c, FromLE(w)), 8 * |w|)
    decreases |w|
  {
    hide Xor, Pow2, ShiftBits;
    WordFits(w);
    Pow2Top();
    if w == [] {
      XorCommutes(32, c, 0);
      XorZero(32, c);
      NoShift(poly, c);
    } else {
      Pow2Word();
      var x, y := w[0], FromLE(w[1..]);
      RawWord(poly, Step(poly, c, x), w[1..]);
      ShiftPasses(poly, Xor32(c, x), y, 8);
      XorAssociates(32, c, x, 0x100 * y);
      XorAdds(32, 8, x, y);
      ShiftTwice(poly, Xor32(c, FromLE(w)), 8, 8 * (|w| - 1));
    }
  }

  lemma NoShift(poly: u32, v: u32)
    ensures ShiftBits(poly, v, 0) == v
  {
  }

  lemma WordInjective(poly: u32, c: u32, w: seq<u8>, w': seq<u8>)
    requires poly >= 0x8000_0000 && |w| == |w'| <= 4 && Raw(poly, c, w) == Raw(poly, c, w')
    ensures w == w'
  {
    hide Xor, Pow2, ShiftBits, Raw, FromLE, ToLE;
    Pow2Top();
    RawWord(poly, c, w);
    RawWord(poly, c, w');
    ShiftInjective(poly, Xor32(c, FromLE(w)), Xor32(c, FromLE(w')), 8 * |w|);
    XorCommutes(32, c, FromLE(w));
    XorCommutes(32, c, FromLE(w'));
    XorCancels(32, FromLE(w), FromLE(w'), c);
    ToFromLE(w);
    ToFromLE(w');
  }

  /** Every change confined to four consecutive bytes changes the checksum. */
  lemma BurstDetected(crc: u32, a: seq<u8>, b: seq<u8>, i: nat, w: nat)
    requires SameBut(a, b, i, w) && w <= 4 && a != b
    ensures Update(crc, a) != Update(crc, b)
  {
    hide Raw;
    var c := Not32(crc);
    RawThrough(IEEE, c, a, i, w);
    RawThrough(IEEE, c, b, i, w);
    assert a == a[..i] + a[i..i + w] + a[i + w..] && b == b[..i] + b[i..i + w] + b[i + w..];
    if Raw(IEEE, c, a) == Raw(IEEE, c, b) {
      var mid := Raw(IEEE, c, a[..i]);
      RawInjective(IEEE, Raw(IEEE, mid, a[i..i + w]), Raw(IEEE, mid, b[i..i + w]), a[i + w..]);
      WordInjective(IEEE, mid, a[i..i + w], b[i..i + w]);
      assert false;
    }
  }

  lemma RawThrough(poly: u32, crc: u32, s: seq<u8>, i: nat, w: nat)
    requires i + w <= |s|
    ensures Raw(poly, crc, s) == Raw(poly, Raw(poly, Raw(poly, crc, s[..i]), s[i..i + w]), s[i + w..])
  {
    hide Raw;
    assert s == s[..i + w] + s[i + w..] && s[..i + w] == s[..i] + s[i..i + w];
    RawConcat(poly, crc, s[..i + w], s[i + w..]);
    RawConcat(poly, crc, s[..i], s[i..i + w]);
  }
}
