/** Fixed-width integers, their little-endian encoding, and the field-by-field
    reader and writer that the label records are built from. */
module Bytes {

  type u8 = x: int | 0 <= x < 0x100
  type u16 = x: int | 0 <= x < 0x1_0000
  type u32 = x: int | 0 <= x < 0x1_0000_0000
  type u64 = x: int | 0 <= x < 0x1_0000_0000_0000_0000

  const U32_MAX: u32 := 0xffff_ffff
  const U64_MODULUS: int := 0x1_0000_0000_0000_0000
  const U32_MODULUS: int := 0x1_0000_0000

  datatype Option<+T> = None | Some(value: T)

  /** Unsigned 64-bit addition and subtraction as the release profile compiles them. */
  function Add64(a: u64, b: u64): (r: u64)
    ensures a + b < U64_MODULUS ==> r == a + b
    ensures a + b >= U64_MODULUS ==> r == a + b - U64_MODULUS
  {
    (a + b) % U64_MODULUS
  }

  function Sub64(a: u64, b: u64): (r: u64)
    ensures a >= b ==> r == a - b
    ensures a < b ==> r == a - b + U64_MODULUS
  {
    (a - b) % U64_MODULUS
  }

  function Mul32(a: u32, b: u32): u32 {
    (a * b) % U32_MODULUS
  }

  function Zeros(n: nat): (z: seq<u8>)
    ensures |z| == n
  {
    seq(n, _ => 0)
  }

  // ---------------------------------------------------------------- integers

  function Pow256(n: nat): (p: nat)
    ensures p >= 1
  {
    if n == 0 then 1 else 256 * Pow256(n - 1)
  }

  lemma Pow256Values()
    ensures Pow256(1) == 0x100 && Pow256(2) == 0x1_0000
    ensures Pow256(4) == 0x1_0000_0000 && Pow256(8) == 0x1_0000_0000_0000_0000
  {
    assert Pow256(2) == 256 * Pow256(1);
    assert Pow256(3) == 256 * Pow256(2);
    assert Pow256(4) == 256 * Pow256(3);
    assert Pow256(5) == 256 * Pow256(4);
    assert Pow256(6) == 256 * Pow256(5);
    assert Pow256(7) == 256 * Pow256(6);
  }

  /** The n low-order bytes of v, least significant first. */
  function ToLE(v: nat, n: nat): (b: seq<u8>)
    ensures |b| == n
  {
    if n == 0 then [] else [v % 256] + ToLE(v / 256, n - 1)
  }

  function FromLE(b: seq<u8>): (v: nat)
    ensures v < Pow256(|b|)
  {
    if b == [] then 0 else b[0] + 256 * FromLE(b[1..])
  }

  lemma {:induction false} FromToLE(v: nat, n: nat)
    requires v < Pow256(n)
    ensures FromLE(ToLE(v, n)) == v
  {
    if n > 0 {
      FromToLE(v / 256, n - 1);
      assert ToLE(v, n)[1..] == ToLE(v / 256, n - 1);
    }
  }

  lemma {:induction false} ToFromLE(b: seq<u8>)
    ensures ToLE(FromLE(b), |b|) == b
  {
    if b != [] {
      ToFromLE(b[1..]);
      assert (b[0] + 256 * FromLE(b[1..])) / 256 == FromLE(b[1..]);
      assert b == [b[0]] + b[1..];
    }
  }

  // ------------------------------------------------------------ record fields

  /** A record field is an integer or a fixed array of bytes; its kind gives the width. */
  datatype Kind = KInt(width: nat) | KRaw(width: nat)
  datatype Field = Int(v: nat) | Raw(b: seq<u8>)

  predicate Fits(k: Kind, f: Field) {
    match k
    case KInt(w) => f.Int? && f.v < Pow256(w)
    case KRaw(w) => f.Raw? && |f.b| == w
  }

  predicate AllFit(ks: seq<Kind>, fs: seq<Field>) {
    |ks| == |fs| && forall i :: 0 <= i < |ks| ==> Fits(ks[i], fs[i])
  }

  function Put(k: Kind, f: Field): (b: seq<u8>)
    requires Fits(k, f)
    ensures |b| == k.width
  {
    match k
    case KInt(w) => ToLE(f.v, w)
    case KRaw(w) => f.b
  }

  function Get(k: Kind, b: seq<u8>): (f: Field)
    requires |b| == k.width
    ensures Fits(k, f)
  {
    match k
    case KInt(w) => Int(FromLE(b))
    case KRaw(w) => Raw(b)
  }

  lemma GetPut(k: Kind, f: Field)
    requires Fits(k, f)
    ensures Get(k, Put(k, f)) == f
  {
    if k.KInt? { FromToLE(f.v, k.width); }
  }

  lemma PutGet(k: Kind, b: seq<u8>)
    requires |b| == k.width
    ensures Put(k, Get(k, b)) == b
  {
    if k.KInt? { ToFromLE(b); }
  }

  function Size(ks: seq<Kind>): nat {
    if ks == [] then 0 else ks[0].width + Size(ks[1..])
  }

  lemma SizeSteps(ks: seq<Kind>)
    ensures ks[0..] == ks && Size(ks[|ks|..]) == 0
    ensures forall i {:trigger Size(ks[i..])} :: 0 <= i < |ks| ==> Size(ks[i..]) == ks[i].width + Size(ks[i + 1..])
  {
    forall i | 0 <= i < |ks| ensures Size(ks[i..]) == ks[i].width + Size(ks[i + 1..]) {
      assert ks[i..][1..] == ks[i + 1..];
    }
  }

  /** A record is written as its fields one after the other. */
  function PutAll(ks: seq<Kind>, fs: seq<Field>): (b: seq<u8>)
    requires AllFit(ks, fs)
    ensures |b| == Size(ks)
    decreases |fs|, |ks|
  {
    if ks == [] then [] else Put(ks[0], fs[0]) + PutAll(ks[1..], fs[1..])
  }

  /** The bytes stand in the buffer at the offset. */
  predicate Holds(buf: seq<u8>, off: nat, bytes: seq<u8>) {
    off + |bytes| <= |buf| && buf[off..off + |bytes|] == bytes
  }

  /** Every field of a record stands at its offset, which is the sum of the widths before it. */
  lemma {:induction false} PutAllAt(ks: seq<Kind>, fs: seq<Field>, i: nat)
    requires AllFit(ks, fs) && i < |ks|
    ensures Size(ks[i..]) <= Size(ks) && Holds(PutAll(ks, fs), Size(ks) - Size(ks[i..]), Put(ks[i], fs[i]))
    decreases i
  {
    hide Put, Fits;
    if i == 0 {
      assert ks[0..] == ks;
    } else {
      PutAllAt(ks[1..], fs[1..], i - 1);
      assert ks[1..][i - 1..] == ks[i..];
      HoldsBehindPrefix(Put(ks[0], fs[0]), PutAll(ks[1..], fs[1..]), Size(ks[1..]) - Size(ks[i..]), Put(ks[i], fs[i]));
    }
  }

  /** The two agree outside the w bytes from off. */
  predicate SameBut(b: seq<u8>, b': seq<u8>, off: nat, w: nat) {
    |b| == |b'| && off + w <= |b| && b[..off] == b'[..off] && b[off + w..] == b'[off + w..]
  }

  lemma SameButBehind(a: seq<u8>, b: seq<u8>, b': seq<u8>, off: nat, w: nat)
    requires SameBut(b, b', off, w)
    ensures SameBut(a + b, a + b', |a| + off, w)
  {
    assert (a + b)[..|a| + off] == a + b[..off] && (a + b')[..|a| + off] == a + b'[..off];
    assert (a + b)[|a| + off + w..] == b[off + w..] && (a + b')[|a| + off + w..] == b'[off + w..];
  }

  lemma SameButFront(a: seq<u8>, a': seq<u8>, b: seq<u8>)
    requires |a| == |a'|
    ensures SameBut(a + b, a' + b, 0, |a|)
  {
    assert (a + b)[|a|..] == b && (a' + b)[|a|..] == b;
  }

  /** Changing one field changes only the bytes of that field. */
  lemma {:induction false} PutAllUpdate(ks: seq<Kind>, fs: seq<Field>, i: nat, f: Field)
    requires AllFit(ks, fs) && i < |ks| && Fits(ks[i], f)
    ensures Size(ks[i..]) <= Size(ks)
    ensures SameBut(PutAll(ks, fs), PutAll(ks, fs[i := f]), Size(ks) - Size(ks[i..]), ks[i].width)
    decreases i
  {
    hide Put, Fits, SameBut;
    if i == 0 {
      assert ks[0..] == ks;
      assert fs[0 := f][1..] == fs[1..];
      SameButFront(Put(ks[0], fs[0]), Put(ks[0], f), PutAll(ks[1..], fs[1..]));
    } else {
      PutAllUpdate(ks[1..], fs[1..], i - 1, f);
      assert ks[1..][i - 1..] == ks[i..];
      assert fs[i := f][1..] == fs[1..][i - 1 := f];
      SameButBehind(Put(ks[0], fs[0]), PutAll(ks[1..], fs[1..]), PutAll(ks[1..], fs[1..][i - 1 := f]),
                    Size(ks[1..]) - Size(ks[i..]), ks[i].width);
    }
  }

  lemma HoldsBeforeSuffix(a: seq<u8>, b: seq<u8>, off: nat, bytes: seq<u8>)
    requires Holds(a, off, bytes)
    ensures Holds(a + b, off, bytes)
  {
    assert (a + b)[off..off + |bytes|] == a[off..off + |bytes|];
  }

  lemma HoldsAtEnd(a: seq<u8>, b: seq<u8>)
    ensures Holds(a + b, |a|, b)
  {
    assert (a + b)[|a|..|a| + |b|] == b;
  }

  lemma HoldsBehindPrefix(a: seq<u8>, b: seq<u8>, off: nat, bytes: seq<u8>)
    requires Holds(b, off, bytes)
    ensures Holds(a + b, |a| + off, bytes)
  {
    assert (a + b)[|a| + off..|a| + off + |bytes|] == b[off..off + |bytes|];
  }

  /** Offsets that start at 0 and grow by the width of each field are where the fields stand. */
  lemma Offsets(ks: seq<Kind>, fs: seq<Field>, offs: seq<nat>)
    requires AllFit(ks, fs) && |offs| == |ks| && ks != [] && offs[0] == 0
    requires forall i :: 0 <= i < |ks| - 1 ==> offs[i + 1] == offs[i] + ks[i].width
    ensures forall i {:trigger offs[i]} :: 0 <= i < |ks| ==> Holds(PutAll(ks, fs), offs[i], Put(ks[i], fs[i]))
  {
    hide Put, PutAll, Holds, Fits;
    forall i | 0 <= i < |ks| ensures Holds(PutAll(ks, fs), offs[i], Put(ks[i], fs[i])) {
      OffsetIs(ks, offs, i);
      PutAllAt(ks, fs, i);
    }
  }

  lemma {:induction false} OffsetIs(ks: seq<Kind>, offs: seq<nat>, i: nat)
    requires |offs| == |ks| && i < |ks| && offs[0] == 0
    requires forall i :: 0 <= i < |ks| - 1 ==> offs[i + 1] == offs[i] + ks[i].width
    ensures offs[i] == Size(ks) - Size(ks[i..])
  {
    if i == 0 {
      assert ks[0..] == ks;
    } else {
      OffsetIs(ks, offs, i - 1);
      assert ks[i - 1..][1..] == ks[i..];
    }
  }

  datatype Fields = Short | Fields(fields: seq<Field>, rest: seq<u8>)

  /** Reads fields of the given kinds from the front of b; Short when b runs out. */
  function GetAll(ks: seq<Kind>, b: seq<u8>): (r: Fields)
    ensures r.Fields? ==> AllFit(ks, r.fields)
    decreases |b|, |ks|
  {
    if ks == [] then Fields([], b)
    else if |b| < ks[0].width then Short
    else match GetAll(ks[1..], b[ks[0].width..])
      case Short => Short
      case Fields(fs, rest) => Fields([Get(ks[0], b[..ks[0].width])] + fs, rest)
  }

  lemma Halves<T>(a: seq<T>, b: seq<T>)
    ensures (a + b)[..|a|] == a && (a + b)[|a|..] == b
  {
  }

  lemma SliceSlice<T>(s: seq<T>, a: nat, b: nat, c: nat, d: nat)
    requires a <= b <= |s| && c <= d <= b - a
    ensures s[a..b][c..d] == s[a + c..a + d]
  {
    var l, r := s[a..b][c..d], s[a + c..a + d];
    forall i | 0 <= i < |l| ensures l[i] == r[i] {
      assert l[i] == s[a..b][c + i];
    }
  }

  /** Reading what was written gives back the fields and leaves the stream behind them. */
  lemma {:induction false} GetAllPutAll(ks: seq<Kind>, fs: seq<Field>, rest: seq<u8>)
    requires AllFit(ks, fs)
    ensures GetAll(ks, PutAll(ks, fs) + rest) == Fields(fs, rest)
  {
    hide Put, Get, Fits;
    if ks == [] {
      assert PutAll(ks, fs) + rest == rest;
    } else {
      var head, tail := Put(ks[0], fs[0]), PutAll(ks[1..], fs[1..]) + rest;
      assert PutAll(ks, fs) + rest == head + tail;
      Halves(head, tail);
      GetPut(ks[0], fs[0]);
      GetAllPutAll(ks[1..], fs[1..], rest);
      assert fs == [fs[0]] + fs[1..];
    }
  }

  /** Reading succeeds exactly when enough bytes are there, and loses nothing. */
  lemma {:induction false} PutAllGetAll(ks: seq<Kind>, b: seq<u8>)
    ensures GetAll(ks, b).Short? <==> |b| < Size(ks)
    ensures GetAll(ks, b).Fields? ==>
              && PutAll(ks, GetAll(ks, b).fields) == b[..Size(ks)]
              && GetAll(ks, b).rest == b[Size(ks)..]
  {
    hide Put, Get, Fits;
    if ks != [] && |b| >= ks[0].width {
      var w := ks[0].width;
      PutAllGetAll(ks[1..], b[w..]);
      if GetAll(ks, b).Fields? {
        PutGet(ks[0], b[..w]);
        assert GetAll(ks, b).fields[1..] == GetAll(ks[1..], b[w..]).fields;
        assert b[..Size(ks)] == b[..w] + b[w..][..Size(ks[1..])];
        assert b[Size(ks)..] == b[w..][Size(ks[1..])..];
      }
    }
  }
}
